/** String helpers with the semantics of the .NET calls the importer and the
    code builder rely on: String.Split on one separator, Trim, StartsWith and
    Replace of a single character by the empty string. */
module Text {

  /** Char.IsWhiteSpace: the Unicode space separators, line and paragraph
      separators, U+0009..U+000D and U+0085. */
  predicate IsWhite(c: char) {
    || c == ' ' || ('\t' <= c <= '\r') || c == '\U{85}' || c == '\U{A0}'
    || c == '\U{1680}' || ('\U{2000}' <= c <= '\U{200A}')
    || c == '\U{2028}' || c == '\U{2029}' || c == '\U{202F}'
    || c == '\U{205F}' || c == '\U{3000}'
  }

  predicate StartsWith(s: string, prefix: string) {
    |prefix| <= |s| && s[..|prefix|] == prefix
  }

  /** String.Split(sep) without options: every separator cuts, empty pieces are
      kept, so there is always one piece more than there are separators. */
  function Split(s: string, sep: char): (pieces: seq<string>)
    ensures |pieces| >= 1
    ensures forall k :: 0 <= k < |pieces| ==> sep !in pieces[k]
  {
    if s == [] then [""]
    else if s[0] == sep then [""] + Split(s[1..], sep)
    else
      var rest := Split(s[1..], sep);
      [[s[0]] + rest[0]] + rest[1..]
  }

  /** String.Join(sep, pieces), the inverse of Split. */
  function Join(pieces: seq<string>, sep: char): string
    requires |pieces| >= 1
  {
    if |pieces| == 1 then pieces[0] else pieces[0] + [sep] + Join(pieces[1..], sep)
  }

  /** Splitting loses nothing: joining the pieces back gives the input. */
  lemma {:induction false} JoinSplit(s: string, sep: char)
    ensures Join(Split(s, sep), sep) == s
  {
    if s == [] {
    } else if s[0] == sep {
      JoinSplit(s[1..], sep);
      assert [sep] + s[1..] == s;
    } else {
      var rest := Split(s[1..], sep);
      JoinSplit(s[1..], sep);
      if |rest| == 1 {
        assert [s[0]] + rest[0] == s;
      } else {
        assert ([s[0]] + rest[0]) + [sep] + Join(rest[1..], sep)
            == [s[0]] + (rest[0] + [sep] + Join(rest[1..], sep));
        assert [s[0]] + s[1..] == s;
      }
    }
  }

  /** A string without the separator is one piece. */
  lemma {:induction false} SplitWithoutSeparator(s: string, sep: char)
    requires sep !in s
    ensures Split(s, sep) == [s]
  {
    if s != [] {
      assert s[0] != sep;
      SplitWithoutSeparator(s[1..], sep);
      assert [s[0]] + s[1..] == s;
    }
  }

  /** The first separator ends the first piece; the rest is split on its own. */
  lemma {:induction false} SplitAtFirst(a: string, b: string, sep: char)
    requires sep !in a
    ensures Split(a + [sep] + b, sep) == [a] + Split(b, sep)
  {
    if a == [] {
      assert a + [sep] + b == [sep] + b;
      assert ([sep] + b)[1..] == b;
    } else {
      assert (a + [sep] + b)[1..] == a[1..] + [sep] + b;
      SplitAtFirst(a[1..], b, sep);
      assert [a[0]] + a[1..] == a;
    }
  }

  /** String.Concat of a sequence of strings. */
  function Concat(parts: seq<string>): (r: string)
    ensures parts == [] ==> r == ""
  {
    if parts == [] then "" else Concat(parts[..|parts| - 1]) + parts[|parts| - 1]
  }

  /** Concatenation distributes over appending parts, so each part's text
      follows that of the parts before it. */
  lemma {:induction false} ConcatAppend(a: seq<string>, b: seq<string>)
    ensures Concat(a + b) == Concat(a) + Concat(b)
  {
    if b != [] {
      ConcatAppend(a, b[..|b| - 1]);
      assert (a + b)[..|a + b| - 1] == a + b[..|b| - 1];
    } else {
      assert a + b == a;
    }
  }

  /** Number of occurrences of c in s. */
  function Count(s: string, c: char): nat {
    if s == [] then 0 else (if s[0] == c then 1 else 0) + Count(s[1..], c)
  }

  lemma {:induction false} SplitCount(s: string, sep: char)
    ensures |Split(s, sep)| == Count(s, sep) + 1
  {
    if s != [] {
      SplitCount(s[1..], sep);
    }
  }

  /** String.Replace(c.ToString(), ""): every occurrence of c dropped. */
  function Remove(s: string, c: char): (r: string)
    ensures c !in r
    ensures |r| + Count(s, c) == |s|
  {
    if s == [] then ""
    else if s[0] == c then Remove(s[1..], c)
    else [s[0]] + Remove(s[1..], c)
  }

  /** Removing a character that does not occur changes nothing. */
  lemma {:induction false} RemoveAbsent(s: string, c: char)
    requires c !in s
    ensures Remove(s, c) == s
  {
    if s != [] {
      RemoveAbsent(s[1..], c);
      assert [s[0]] + s[1..] == s;
    }
  }

  lemma {:induction false} RemoveAppend(a: string, b: string, c: char)
    ensures Remove(a + b, c) == Remove(a, c) + Remove(b, c)
  {
    if a == [] {
      assert a + b == b;
    } else {
      assert (a + b)[1..] == a[1..] + b;
      RemoveAppend(a[1..], b, c);
    }
  }

  /** Every character of w is white space. */
  predicate AllWhite(w: string) {
    w == [] || (IsWhite(w[0]) && AllWhite(w[1..]))
  }

  lemma {:induction false} AllWhiteAppend(a: string, b: string)
    requires AllWhite(a) && AllWhite(b)
    ensures AllWhite(a + b)
  {
    if a == [] {
      assert a + b == b;
    } else {
      AllWhiteAppend(a[1..], b);
      assert (a + b)[1..] == a[1..] + b;
    }
  }

  lemma {:induction false} AllWhiteIndex(w: string, k: nat)
    requires AllWhite(w) && k < |w|
    ensures IsWhite(w[k])
  {
    if k > 0 {
      AllWhiteIndex(w[1..], k - 1);
    }
  }

  /** String.TrimStart(): drops the leading white space, and only that. */
  function TrimStart(s: string): (r: string)
    ensures |r| <= |s| && r == s[|s| - |r|..]
    ensures r == [] || !IsWhite(r[0])
    ensures AllWhite(s[..|s| - |r|])
  {
    if s != [] && IsWhite(s[0]) then
      var r := TrimStart(s[1..]);
      assert s[..|s| - |r|][1..] == s[1..][..|s| - 1 - |r|];
      r
    else s
  }

  /** String.TrimEnd(): drops the trailing white space, and only that. */
  function TrimEnd(s: string): (r: string)
    ensures |r| <= |s| && r == s[..|r|]
    ensures r == [] || !IsWhite(r[|r| - 1])
    ensures AllWhite(s[|r|..])
  {
    if s != [] && IsWhite(s[|s| - 1]) then
      var r := TrimEnd(s[..|s| - 1]);
      AllWhiteAppend(s[..|s| - 1][|r|..], [s[|s| - 1]]);
      assert s[|r|..] == s[..|s| - 1][|r|..] + [s[|s| - 1]];
      r
    else s
  }

  /** String.Trim(): TrimStart then TrimEnd, so what is dropped is the white
      space before and after the result, and only that; the result neither
      starts nor ends with white space. */
  function Trim(s: string): (r: string)
    ensures r == TrimEnd(TrimStart(s))
    ensures |r| <= |s|
    ensures r == [] || (!IsWhite(r[0]) && !IsWhite(r[|r| - 1]))
    ensures (s == [] || (!IsWhite(s[0]) && !IsWhite(s[|s| - 1]))) ==> r == s
  {
    var t := TrimStart(s);
    var r := TrimEnd(t);
    assert r != [] ==> r[0] == t[0];
    r
  }

  /** A white character appended before TrimStart is kept, unless all that
      precedes it is white space too. */
  lemma {:induction false} TrimStartAppendWhite(s: string, c: char)
    requires IsWhite(c)
    ensures TrimStart(s + [c]) == if TrimStart(s) == [] then [] else TrimStart(s) + [c]
  {
    if s == [] {
      assert TrimStart([c]) == TrimStart([c][1..]);
    } else {
      assert (s + [c])[0] == s[0];
      assert (s + [c])[1..] == s[1..] + [c];
      if IsWhite(s[0]) {
        TrimStartAppendWhite(s[1..], c);
      }
    }
  }

  /** Appending white space does not change what Trim leaves. */
  lemma TrimWhiteAppended(s: string, c: char)
    requires IsWhite(c)
    ensures Trim(s + [c]) == Trim(s)
  {
    TrimStartAppendWhite(s, c);
    var t := TrimStart(s);
    if t != [] {
      assert (t + [c])[..|t|] == t;
    }
  }

  /** Trimming adds no character. */
  lemma TrimAddsNothing(s: string, c: char)
    requires c !in s
    ensures c !in Trim(s)
  {
    var t := TrimStart(s);
    assert forall k :: 0 <= k < |t| ==> t[k] == s[|s| - |t| + k];
    var r := TrimEnd(t);
    assert forall k :: 0 <= k < |r| ==> r[k] == t[k];
  }

  /** Trimming twice is trimming once. */
  lemma TrimIdempotent(s: string)
    ensures Trim(Trim(s)) == Trim(s)
  {
    var r := Trim(s);
    if r != [] {
      assert TrimStart(r) == r;
      assert TrimEnd(r) == r;
    }
  }
}
