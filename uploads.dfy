/**
 * The name rules of the two upload operations of the client API: the
 * sanitised storage name of a resource file and the storage path and size
 * limit of a workout video. Storage itself and public URLs are not modelled.
 */
module Uploads {
  import opened Common
  import opened Text

  /** The characters `[a-zA-Z0-9.\-_]` a resource file name keeps. */
  predicate IsSafeNameChar(c: char)
  {
    ('a' <= c <= 'z') || ('A' <= c <= 'Z') || ('0' <= c <= '9') || c == '.' || c == '-' || c == '_'
  }

  /** Every character of `s` is one `[a-zA-Z0-9.\-_]` keeps. */
  predicate AllSafe(s: string)
  {
    forall i :: 0 <= i < |s| ==> IsSafeNameChar(s[i])
  }

  /**
   * What the filter makes of one character. The pattern has no `u` flag, so
   * it matches UTF-16 code units: a character beyond U+FFFF is two units and
   * becomes two underscores.
   */
  function UnitReplacement(c: char): (r: string)
    ensures |r| == Utf16Length([c])
    ensures AllSafe(r)
    ensures r == [c] <==> IsSafeNameChar(c)
  {
    assert [c][1..] == [];
    if IsSafeNameChar(c) then [c] else if c as int > 0xFFFF then "__" else "_"
  }

  /** `replace(/[^a-zA-Z0-9.\-_]/g, '_')`: every other code unit becomes an underscore. */
  function ReplaceUnsafe(s: string): (r: string)
    ensures |r| == Utf16Length(s)
    ensures AllSafe(r)
  {
    if s == [] then []
    else
      var head, rest := UnitReplacement(s[0]), ReplaceUnsafe(s[1..]);
      assert Utf16Length(s) == Utf16Length([s[0]]) + Utf16Length(s[1..]) by {
        assert [s[0]][1..] == [];
      }
      assert AllSafe(head + rest) by {
        forall i | 0 <= i < |head + rest| ensures IsSafeNameChar((head + rest)[i]) {
          if i >= |head| {
            assert (head + rest)[i] == rest[i - |head|];
          }
        }
      }
      head + rest
  }

  /** The filter works character by character: it distributes over concatenation. */
  lemma {:induction false} ReplaceUnsafeAppend(a: string, b: string)
    ensures ReplaceUnsafe(a + b) == ReplaceUnsafe(a) + ReplaceUnsafe(b)
  {
    if a != [] {
      assert (a + b)[0] == a[0] && (a + b)[1..] == a[1..] + b;
      ReplaceUnsafeAppend(a[1..], b);
    } else {
      assert a + b == b;
    }
  }

  /** The filter leaves a name unchanged exactly when every character is safe. */
  lemma {:induction false} ReplaceUnsafeKeepsIffSafe(s: string)
    ensures ReplaceUnsafe(s) == s <==> AllSafe(s)
  {
    if s != [] {
      ReplaceUnsafeKeepsIffSafe(s[1..]);
      var head := UnitReplacement(s[0]);
      var rest := ReplaceUnsafe(s[1..]);
      assert ReplaceUnsafe(s) == head + rest;
      if IsSafeNameChar(s[0]) {
        assert ReplaceUnsafe(s) == [s[0]] + rest;
        assert s == [s[0]] + s[1..];
        if ReplaceUnsafe(s) == s {
          assert rest == s[1..];
        }
        if AllSafe(s) {
          assert AllSafe(s[1..]) by {
            forall i | 0 <= i < |s[1..]| ensures IsSafeNameChar(s[1..][i]) {
              assert s[1..][i] == s[i + 1];
            }
          }
        } else {
          var k :| 0 <= k < |s| && !IsSafeNameChar(s[k]);
          assert s[1..][k - 1] == s[k];
        }
      } else {
        assert ReplaceUnsafe(s)[0] == '_' != s[0];
      }
    }
  }

  /** An emoji such as U+1F600 is two code units, so "😀.pdf" becomes "__.pdf". */
  lemma WideCharBecomesTwoUnderscores()
    ensures ReplaceUnsafe(['\U{1F600}'] + ".pdf") == "__" + ".pdf"
  {
    var emoji, ext := ['\U{1F600}'], ".pdf";
    ReplaceUnsafeAppend(emoji, ext);
    assert ReplaceUnsafe(emoji) == "__" by {
      assert emoji[1..] == [];
    }
    assert IsSafeNameChar(ext[0]) && IsSafeNameChar(ext[1]) && IsSafeNameChar(ext[2]) && IsSafeNameChar(ext[3]);
    ReplaceUnsafeKeepsIffSafe(ext);
  }

  /** `replace(/\s+/g, '_')`: each maximal run of white space becomes one underscore. */
  function CollapseWhitespace(s: string): (r: string)
    ensures |r| <= |s|
    ensures NoWhitespace(r)
    decreases |s|
  {
    if s == [] then []
    else if IsWhitespace(s[0]) then
      var rest := CollapseWhitespace(TrimStart(s));
      assert NoWhitespace("_");
      NoWhitespaceAppend("_", rest);
      "_" + rest
    else
      var rest := CollapseWhitespace(s[1..]);
      NoWhitespaceAppend([s[0]], rest);
      [s[0]] + rest
  }

  /** A name without white space passes `replace(/\s+/g, '_')` unchanged. */
  lemma {:induction false} CollapseKeepsPlainNames(s: string)
    requires NoWhitespace(s)
    ensures CollapseWhitespace(s) == s
    decreases |s|
  {
    if s != [] {
      assert !IsWhitespace(s[0]);
      CollapseKeepsPlainNames(s[1..]);
    }
  }

  /** Collapsing white space twice is the same as collapsing it once. */
  lemma CollapseIdempotent(s: string)
    ensures CollapseWhitespace(CollapseWhitespace(s)) == CollapseWhitespace(s)
  {
    CollapseKeepsPlainNames(CollapseWhitespace(s));
  }

  /**
   * A white-space run followed by a name that does not start with white space
   * becomes one underscore in front of that name.
   */
  lemma CollapseRun(w: string, b: string)
    requires w != [] && forall i :: 0 <= i < |w| ==> IsWhitespace(w[i])
    requires b == [] || !IsWhitespace(b[0])
    ensures CollapseWhitespace(w + b) == "_" + CollapseWhitespace(b)
  {
    assert (w + b)[0] == w[0];
    TrimStartSkipsRun(w, b);
  }

  /** One step of `CollapseWhitespace` on a name that starts with a visible character. */
  lemma CollapseVisibleHead(s: string)
    requires s != [] && !IsWhitespace(s[0])
    ensures CollapseWhitespace(s) == [s[0]] + CollapseWhitespace(s[1..])
  {
  }

  /** One step of `CollapseWhitespace` on a name that starts with white space. */
  lemma CollapseSpaceHead(s: string)
    requires s != [] && IsWhitespace(s[0])
    ensures CollapseWhitespace(s) == "_" + CollapseWhitespace(TrimStart(s))
  {
  }

  /** Collapsing splits after any prefix that ends outside a white-space run. */
  lemma {:induction false} CollapseAppend(a: string, b: string)
    requires a == [] || !IsWhitespace(a[|a| - 1])
    ensures CollapseWhitespace(a + b) == CollapseWhitespace(a) + CollapseWhitespace(b)
    decreases |a|
  {
    if a == [] {
      assert a + b == b;
    } else {
      var ab := a + b;
      assert ab[0] == a[0];
      if !IsWhitespace(a[0]) {
        assert ab[1..] == a[1..] + b;
        CollapseAppend(a[1..], b);
        CollapseVisibleHead(a);
        CollapseVisibleHead(ab);
        AppendAssoc([a[0]], CollapseWhitespace(a[1..]), CollapseWhitespace(b));
      } else {
        var t := TrimStart(a);
        TrimStartKeepsVisibleEnd(a);
        TrimStartAppend(a, b);
        CollapseAppend(t, b);
        CollapseSpaceHead(a);
        CollapseSpaceHead(ab);
        AppendAssoc("_", CollapseWhitespace(t), CollapseWhitespace(b));
      }
    }
  }

  /** `\s+` to `_`: each maximal white-space run between two parts becomes exactly one underscore. */
  lemma CollapseSplitsAtRun(a: string, w: string, b: string)
    requires w != [] && forall i :: 0 <= i < |w| ==> IsWhitespace(w[i])
    requires a == [] || !IsWhitespace(a[|a| - 1])
    requires b == [] || !IsWhitespace(b[0])
    ensures CollapseWhitespace(a + w + b) == CollapseWhitespace(a) + "_" + CollapseWhitespace(b)
  {
    AppendAssoc(a, w, b);
    CollapseAppend(a, w + b);
    CollapseRun(w, b);
    AppendAssoc(CollapseWhitespace(a), "_", CollapseWhitespace(b));
  }

  /** A safe name character is never white space. */
  lemma SafeCharIsNotWhitespace(c: char)
    requires IsSafeNameChar(c)
    ensures !IsWhitespace(c)
  {
  }

  /** The sanitised name of a resource file (after accent stripping, which is not modelled). */
  function SafeResourceName(name: string): (r: string)
    ensures |r| == Utf16Length(name)
    ensures AllSafe(r)
    ensures AllSafe(name) ==> r == name
  {
    var replaced := ReplaceUnsafe(name);
    forall i | 0 <= i < |replaced|
      ensures !IsWhitespace(replaced[i])
    {
      SafeCharIsNotWhitespace(replaced[i]);
    }
    CollapseKeepsPlainNames(replaced);
    ReplaceUnsafeKeepsIffSafe(name);
    CollapseWhitespace(replaced)
  }

  /** The final white-space pass never changes a name the character filter has produced. */
  lemma {:induction false} WhitespacePassIsRedundant(name: string)
    ensures SafeResourceName(name) == ReplaceUnsafe(name)
  {
    var replaced := ReplaceUnsafe(name);
    forall i | 0 <= i < |replaced|
      ensures !IsWhitespace(replaced[i])
    {
      SafeCharIsNotWhitespace(replaced[i]);
    }
    CollapseKeepsPlainNames(replaced);
  }

  /** The stored name of a resource file: `${timestamp}_${safeName}`. */
  function ResourceFileName(timestamp: nat, name: string): (r: string)
    ensures |r| == |DecimalString(timestamp)| + 1 + Utf16Length(name)
  {
    DecimalString(timestamp) + "_" + SafeResourceName(name)
  }

  /**
   * A stored resource name splits back into its parts: the text before the
   * first underscore reads as the timestamp, the rest is the sanitised name.
   */
  lemma ResourceFileNameSplits(timestamp: nat, name: string)
    ensures var f := ResourceFileName(timestamp, name);
            var k := FirstIndexOf(f, '_');
            k < |f| && ParseDecimal(f[..k]) == timestamp && f[k + 1..] == SafeResourceName(name)
  {
    var digits := DecimalString(timestamp);
    var f := ResourceFileName(timestamp, name);
    assert f[|digits|] == '_';
    assert forall i :: 0 <= i < |digits| ==> f[i] == digits[i] && IsDigit(f[i]);
    var k := FirstIndexOf(f, '_');
    assert k == |digits|;
    assert f[..k] == digits;
    assert f[k + 1..] == SafeResourceName(name);
    DecimalRoundTrip(timestamp);
  }

  /** `uploadResourceFile`: a signed-in user gets the storage name; nobody else gets anything. */
  function UploadResourceFile(user: Option<string>, timestamp: nat, name: string): (r: Result<string, ApiError>)
    ensures user.None? <==> r == Err(NotAuthenticated)
    ensures r.Ok? ==> r.value == ResourceFileName(timestamp, name)
    ensures r.Ok? ==> forall i :: |DecimalString(timestamp)| < i < |r.value| ==> IsSafeNameChar(r.value[i])
  {
    if user.None? then Err(NotAuthenticated) else Ok(ResourceFileName(timestamp, name))
  }

  /** The video size limit, 50 MiB. */
  const MaxVideoBytes: nat := 50 * 1024 * 1024

  /** The guards of `uploadWorkoutVideo`, in order: a signed-in user, then the size limit. */
  function CheckVideo(user: Option<string>, size: nat): (r: Result<string, ApiError>)
    ensures r.Ok? <==> user.Some? && size <= MaxVideoBytes
    ensures r.Ok? ==> r.value == user.value
    ensures user.None? ==> r == Err(NotAuthenticated)
    ensures user.Some? && size > MaxVideoBytes ==> r == Err(VideoTooLarge)
  {
    if user.None? then Err(NotAuthenticated)
    else if size > MaxVideoBytes then Err(VideoTooLarge)
    else Ok(user.value)
  }

  /** The storage path of a workout video: `${userId}/${timestamp}_${name with white space runs as _}`. */
  function VideoPath(userId: string, timestamp: nat, name: string): (r: string)
    ensures |r| > |userId| && r[..|userId|] == userId && r[|userId|] == '/'
  {
    userId + "/" + DecimalString(timestamp) + "_" + CollapseWhitespace(name)
  }

  /**
   * A video path lies in the user's own folder, and its file part splits at
   * its first underscore into the timestamp's digits and the collapsed name,
   * which holds no white space.
   */
  lemma VideoPathShape(userId: string, timestamp: nat, name: string)
    ensures var p := VideoPath(userId, timestamp, name);
            var file := p[|userId| + 1..];
            var k := FirstIndexOf(file, '_');
            && |p| > |userId| && p[..|userId|] == userId && p[|userId|] == '/'
            && k < |file| && ParseDecimal(file[..k]) == timestamp
            && file[k + 1..] == CollapseWhitespace(name)
            && NoWhitespace(file)
  {
    var p := VideoPath(userId, timestamp, name);
    var digits := DecimalString(timestamp);
    assert NoWhitespace(digits) by {
      forall i | 0 <= i < |digits| ensures !IsWhitespace(digits[i]) {
        assert IsDigit(digits[i]);
      }
    }
    assert NoWhitespace("_");
    NoWhitespaceAppend(digits, "_");
    NoWhitespaceAppend(digits + "_", CollapseWhitespace(name));
    assert p == userId + "/" + (digits + "_" + CollapseWhitespace(name));
    var file := p[|userId| + 1..];
    assert file == digits + "_" + CollapseWhitespace(name);
    assert file[|digits|] == '_';
    assert forall i :: 0 <= i < |digits| ==> file[i] == digits[i] && IsDigit(file[i]);
    var k := FirstIndexOf(file, '_');
    assert k == |digits|;
    assert file[..k] == digits;
    assert file[k + 1..] == CollapseWhitespace(name);
    DecimalRoundTrip(timestamp);
  }
}
