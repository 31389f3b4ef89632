/** String operations the bot relies on, with Python's meaning:
    `str.isspace`, `str.strip`, `in` on strings, `str.startswith`,
    `str.replace` of a single character and `"".join`. */
module Text {

  /** Python's `str.isspace` for one character: the characters with the
      Unicode White_Space property or bidirectional class WS, B or S. */
  predicate IsSpace(c: char) {
    ('\t' <= c <= '\r') || ('\U{001C}' <= c <= ' ')
    || c == '\U{0085}' || c == '\U{00A0}' || c == '\U{1680}'
    || ('\U{2000}' <= c <= '\U{200A}')
    || c == '\U{2028}' || c == '\U{2029}' || c == '\U{202F}'
    || c == '\U{205F}' || c == '\U{3000}'
  }

  /** No whitespace at either end: what `strip()` leaves behind. */
  predicate Trimmed(s: string) {
    s == [] || (!IsSpace(s[0]) && !IsSpace(s[|s| - 1]))
  }

  /** `s.lstrip()`: the suffix left after dropping leading whitespace. */
  function TrimStart(s: string): (r: string)
    ensures |r| <= |s| && r == s[|s| - |r|..]
    ensures forall k :: 0 <= k < |s| - |r| ==> IsSpace(s[k])
    ensures r == [] || !IsSpace(r[0])
  {
    if |s| > 0 && IsSpace(s[0]) then TrimStart(s[1..]) else s
  }

  /** `s.rstrip()`: the prefix left after dropping trailing whitespace. */
  function TrimEnd(s: string): (r: string)
    ensures |r| <= |s| && r == s[..|r|]
    ensures forall k :: |r| <= k < |s| ==> IsSpace(s[k])
    ensures r == [] || !IsSpace(r[|r| - 1])
  {
    if |s| > 0 && IsSpace(s[|s| - 1]) then TrimEnd(s[..|s| - 1]) else s
  }

  /** `s.strip()`: no whitespace is left at the ends of the result, which
      is never longer than `s`; `StripIsSlice` and `StripCutsOnlySpace` say
      where in `s` it stands and what was cut. */
  function Strip(s: string): (r: string)
    ensures Trimmed(r) && |r| <= |s|
  {
    TrimEnd(TrimStart(s))
  }

  /** The stripped text is the slice of `s` after its leading whitespace. */
  lemma StripIsSlice(s: string)
    ensures StripOffset(s) + |Strip(s)| <= |s|
    ensures Strip(s) == s[StripOffset(s)..StripOffset(s) + |Strip(s)|]
  {
  }

  /** Where the stripped text starts in `s`: the number of leading blanks. */
  function StripOffset(s: string): nat {
    |s| - |TrimStart(s)|
  }

  /** What `strip()` cuts off is whitespace, on both sides. */
  lemma StripCutsOnlySpace(s: string)
    ensures forall k :: 0 <= k < StripOffset(s) ==> IsSpace(s[k])
    ensures forall k :: StripOffset(s) + |Strip(s)| <= k < |s| ==> IsSpace(s[k])
  {
    var t := TrimStart(s);
    var r := TrimEnd(t);
    forall k | StripOffset(s) + |r| <= k < |s| ensures IsSpace(s[k]) {
      assert s[k] == t[k - StripOffset(s)];
    }
  }

  /** Stripping a string that has no whitespace at its ends changes nothing. */
  lemma StripTrimmed(s: string)
    requires Trimmed(s)
    ensures Strip(s) == s
  {
    assert TrimStart(s) == s;
    assert TrimEnd(s) == s;
  }

  /** `strip()` is idempotent. */
  lemma StripIdempotent(s: string)
    ensures Strip(Strip(s)) == Strip(s)
  {
    StripTrimmed(Strip(s));
  }

  /** A text that strips to something non-empty starts either with
      whitespace or with the first character of its stripped form. */
  lemma StripFirst(s: string)
    requires Strip(s) != []
    ensures |s| > 0 && (IsSpace(s[0]) || s[0] == Strip(s)[0])
  {
    StripIsSlice(s);
    StripCutsOnlySpace(s);
    if StripOffset(s) == 0 {
      assert s[0] == s[0..|Strip(s)|][0];
    }
  }

  /** The characters of `Strip(s)` all come from `s`. */
  lemma StripChars(s: string, c: char)
    requires c in Strip(s)
    ensures c in s
  {
    StripIsSlice(s);
    SliceChars(s, StripOffset(s), Strip(s));
  }

  /** Every character of a slice of `s` is a character of `s`. */
  lemma SliceChars(s: string, i: int, r: string)
    requires 0 <= i <= |s| - |r| && s[i..i + |r|] == r
    ensures forall c :: c in r ==> c in s
  {
    forall c | c in r ensures c in s {
      var j :| 0 <= j < |r| && r[j] == c;
      assert s[i + j] == r[j];
    }
  }

  /** `s.startswith(p)`. */
  predicate StartsWith(s: string, p: string) {
    |p| <= |s| && s[..|p|] == p
  }

  /** `k` occurs in `s` at offset `i`. */
  ghost predicate OccursAt(k: string, s: string, i: int) {
    0 <= i <= |s| - |k| && s[i..i + |k|] == k
  }

  /** Python's `k in s` for strings: substring search. */
  function IsSubstring(k: string, s: string): (b: bool)
    ensures StartsWith(s, k) ==> b
    ensures b ==> |k| <= |s|
    decreases |s|
  {
    StartsWith(s, k) || (|s| > 0 && IsSubstring(k, s[1..]))
  }

  /** The search finds `k` exactly when `k` occurs somewhere in `s`. */
  lemma {:induction false} IsSubstringCorrect(k: string, s: string)
    ensures IsSubstring(k, s) <==> exists i :: OccursAt(k, s, i)
    decreases |s|
  {
    if StartsWith(s, k) {
      assert OccursAt(k, s, 0);
    } else if |s| > 0 {
      IsSubstringCorrect(k, s[1..]);
      if IsSubstring(k, s[1..]) {
        var i :| OccursAt(k, s[1..], i);
        assert s[i + 1..i + 1 + |k|] == s[1..][i..i + |k|];
        assert OccursAt(k, s, i + 1);
      }
      if i :| OccursAt(k, s, i) {
        assert i != 0;
        assert s[1..][i - 1..i - 1 + |k|] == s[i..i + |k|];
        assert OccursAt(k, s[1..], i - 1);
      }
    }
  }

  /** A key longer than the text cannot occur in it. */
  lemma LongerNotSubstring(k: string, s: string)
    requires |k| > |s|
    ensures !IsSubstring(k, s)
  {
    IsSubstringCorrect(k, s);
  }

  /** `any(k in s for k in keys)`. */
  predicate ContainsAny(keys: seq<string>, s: string)
    ensures ContainsAny(keys, s) ==> exists i :: 0 <= i < |keys| && |keys[i]| <= |s|
  {
    exists i :: 0 <= i < |keys| && IsSubstring(keys[i], s)
  }

  /** `s.replace("\n", ", ")`, one character at a time from the left. */
  function ReplaceNewlines(s: string): (r: string)
    ensures s == "\n" ==> r == ", "
    ensures '\n' !in r
    ensures |r| >= |s|
  {
    if s == [] then []
    else (if s[0] == '\n' then ", " else [s[0]]) + ReplaceNewlines(s[1..])
  }

  /** `s.replace("*", "")`: every character of the result is one of `s`
      and is not `*`. */
  function RemoveStars(s: string): (r: string)
    ensures forall c :: c in r ==> c in s && c != '*'
    ensures |r| <= |s|
  {
    if s == [] then []
    else (if s[0] == '*' then [] else [s[0]]) + RemoveStars(s[1..])
  }

  /** Replacing works piecewise: the replacement of a concatenation is the
      concatenation of the replacements. */
  lemma {:induction false} ReplaceNewlinesAppend(a: string, b: string)
    ensures ReplaceNewlines(a + b) == ReplaceNewlines(a) + ReplaceNewlines(b)
  {
    if a != [] {
      assert (a + b)[1..] == a[1..] + b;
      ReplaceNewlinesAppend(a[1..], b);
    } else {
      assert a + b == b;
    }
  }

  /** A string without newlines is left as it is. */
  lemma {:induction false} ReplaceNewlinesIdentity(s: string)
    requires '\n' !in s
    ensures ReplaceNewlines(s) == s
  {
    if s != [] {
      assert s == [s[0]] + s[1..];
      ReplaceNewlinesIdentity(s[1..]);
    }
  }

  /** Removing stars works piecewise as well. */
  lemma {:induction false} RemoveStarsAppend(a: string, b: string)
    ensures RemoveStars(a + b) == RemoveStars(a) + RemoveStars(b)
  {
    if a != [] {
      assert (a + b)[1..] == a[1..] + b;
      RemoveStarsAppend(a[1..], b);
    } else {
      assert a + b == b;
    }
  }

  /** A string without stars is left as it is. */
  lemma {:induction false} RemoveStarsIdentity(s: string)
    requires '*' !in s
    ensures RemoveStars(s) == s
  {
    if s != [] {
      assert s == [s[0]] + s[1..];
      RemoveStarsIdentity(s[1..]);
    }
  }

  /** `"".join(parts)`. */
  function Join(parts: seq<string>): (r: string)
    ensures forall i :: 0 <= i < |parts| ==> |parts[i]| <= |r|
    ensures |parts| == 1 ==> r == parts[0]
  {
    if parts == [] then ""
    else
      var rest := Join(parts[1..]);
      assert forall i :: 1 <= i < |parts| ==> parts[i] == parts[1..][i - 1];
      assert |parts| == 1 ==> rest == "" && parts[0] + rest == parts[0];
      parts[0] + rest
  }

  /** Joining a concatenation of chunk lists joins each list and concatenates. */
  lemma {:induction false} JoinAppend(a: seq<string>, b: seq<string>)
    ensures Join(a + b) == Join(a) + Join(b)
  {
    if a != [] {
      assert (a + b)[1..] == a[1..] + b;
      JoinAppend(a[1..], b);
    } else {
      assert a + b == b;
    }
  }

  /** The summed length of all chunks. */
  function TotalLength(parts: seq<string>): nat {
    if parts == [] then 0 else |parts[0]| + TotalLength(parts[1..])
  }

  /** The joined text is exactly as long as all chunks together. */
  lemma {:induction false} JoinLength(parts: seq<string>)
    ensures |Join(parts)| == TotalLength(parts)
  {
    if parts != [] {
      JoinLength(parts[1..]);
    }
  }
}
