/** Go string helpers that several components of the control plane rely on:
    trimming, splitting on one separator, joining, and cutting.  A string is a
    sequence of Unicode scalar values. */
module Text {

  datatype Option<+T> = None | Some(value: T) {
    function GetOr(fallback: T): T {
      if Some? then value else fallback
    }
  }

  /** `unicode.IsSpace`: the characters that `strings.TrimSpace` removes. */
  predicate IsSpace(c: char) {
    || c == ' ' || '\t' <= c <= '\r' || c == '\U{0085}' || c == '\U{00A0}' || c == '\U{1680}'
    || '\U{2000}' <= c <= '\U{200A}' || c == '\U{2028}' || c == '\U{2029}' || c == '\U{202F}'
    || c == '\U{205F}' || c == '\U{3000}'
  }

  /** Some member of a non-empty set. */
  lemma Pick<T>(s: set<T>) returns (x: T)
    requires s != {}
    ensures x in s
  {
    x :| x in s;
  }

  /** A non-empty list is appended by appending all but its last element and then that. */
  lemma AppendLast<T>(a: seq<T>, b: seq<T>)
    requires b != []
    ensures a + b == (a + b[..|b| - 1]) + [b[|b| - 1]] && b == b[..|b| - 1] + [b[|b| - 1]]
  {
  }

  predicate NoChar(s: string, c: char) {
    c !in s
  }

  /** `strings.TrimSpace`, left end and right end. */
  function TrimSpaceLeft(s: string): (r: string)
    ensures r != "" ==> !IsSpace(r[0])
    ensures forall c :: c in r ==> c in s
  {
    if s == "" || !IsSpace(s[0]) then s else TrimSpaceLeft(s[1..])
  }

  function TrimSpaceRight(s: string): (r: string)
    ensures r <= s
    ensures r != "" ==> !IsSpace(r[|r| - 1])
  {
    if s == "" || !IsSpace(s[|s| - 1]) then s else TrimSpaceRight(s[..|s| - 1])
  }

  function TrimSpace(s: string): (r: string)
    ensures Trimmed(r)
    ensures forall c :: c in r ==> c in s
  {
    TrimSpaceRight(TrimSpaceLeft(s))
  }

  predicate Trimmed(s: string) {
    s == "" || (!IsSpace(s[0]) && !IsSpace(s[|s| - 1]))
  }

  /** A string is its own trimmed form exactly when it has no outer white space. */
  lemma TrimSpaceFixed(s: string)
    ensures TrimSpace(s) == s <==> Trimmed(s)
  {
  }

  predicate Blank(s: string) {
    forall c :: c in s ==> IsSpace(c)
  }

  /** Trimming takes white space off both ends and nothing else. */
  lemma TrimSpaceParts(s: string) returns (before: string, after: string)
    ensures s == before + TrimSpace(s) + after && Blank(before) && Blank(after)
  {
    var middle;
    before, middle := LeftPart(s);
    after := RightPart(middle);
    assert s == before + (TrimSpaceRight(middle) + after);
  }

  lemma LeftPart(s: string) returns (before: string, rest: string)
    ensures rest == TrimSpaceLeft(s) && s == before + rest && Blank(before)
  {
    if s == "" || !IsSpace(s[0]) {
      before, rest := "", s;
    } else {
      before, rest := LeftPart(s[1..]);
      before := [s[0]] + before;
    }
  }

  lemma RightPart(s: string) returns (after: string)
    ensures s == TrimSpaceRight(s) + after && Blank(after)
  {
    if s == "" || !IsSpace(s[|s| - 1]) {
      after := "";
    } else {
      var n := |s| - 1;
      after := RightPart(s[..n]);
      after := after + [s[n]];
      assert s == s[..n] + [s[n]];
    }
  }

  /** And what is left is determined by that: trimming takes off any white space around a trimmed text. */
  lemma TrimSpaceAround(before: string, middle: string, after: string)
    requires Blank(before) && Blank(after) && Trimmed(middle)
    ensures TrimSpace(before + middle + after) == middle
  {
    LeftAround(before, middle + after);
    assert before + middle + after == before + (middle + after);
    if middle == "" {
      assert middle + after == after;
      LeftAround(after, "");
      assert after + "" == after;
    } else {
      assert (middle + after)[0] == middle[0];
      RightAround(middle, after);
    }
  }

  lemma {:induction false} LeftAround(before: string, rest: string)
    requires Blank(before)
    ensures TrimSpaceLeft(before + rest) == TrimSpaceLeft(rest)
  {
    if before == "" {
      assert before + rest == rest;
    } else {
      assert IsSpace(before[0]) by { assert before[0] in before; }
      LeftAround(before[1..], rest);
      assert (before + rest)[1..] == before[1..] + rest;
    }
  }

  lemma {:induction false} RightAround(middle: string, after: string)
    requires Blank(after) && middle != "" && !IsSpace(middle[|middle| - 1])
    ensures TrimSpaceRight(middle + after) == middle
  {
    if after == "" {
      assert middle + after == middle;
    } else {
      var n := |after| - 1;
      assert IsSpace(after[n]) by { assert after[n] in after; }
      RightAround(middle, after[..n]);
      assert (middle + after)[..|middle + after| - 1] == middle + after[..n];
    }
  }

  /** `strings.Trim` with a set of characters, left end and right end. */
  function TrimSetLeft(s: string, cut: set<char>): (r: string)
    ensures r != "" ==> r[0] !in cut
    ensures forall c :: c in r ==> c in s
  {
    if s == "" || s[0] !in cut then s else TrimSetLeft(s[1..], cut)
  }

  function TrimSetRight(s: string, cut: set<char>): (r: string)
    ensures r <= s
    ensures r != "" ==> r[|r| - 1] !in cut
  {
    if s == "" || s[|s| - 1] !in cut then s else TrimSetRight(s[..|s| - 1], cut)
  }

  function TrimSet(s: string, cut: set<char>): (r: string)
    ensures r != "" ==> r[0] !in cut && r[|r| - 1] !in cut
    ensures forall c :: c in r ==> c in s
  {
    TrimSetRight(TrimSetLeft(s, cut), cut)
  }

  lemma TrimSetFixed(s: string, cut: set<char>)
    requires s != "" ==> s[0] !in cut && s[|s| - 1] !in cut
    ensures TrimSet(s, cut) == s
  {
  }

  /** `strings.Split` on a one-character separator. */
  function Split(s: string, sep: char): (parts: seq<string>)
    ensures |parts| >= 1
    ensures forall i :: 0 <= i < |parts| ==> NoChar(parts[i], sep)
  {
    if s == "" then [""]
    else
      var rest := Split(s[1..], sep);
      if s[0] == sep then [""] + rest else [[s[0]] + rest[0]] + rest[1..]
  }

  /** `strings.Join`. */
  function Join(parts: seq<string>, sep: string): string {
    if parts == [] then ""
    else if |parts| == 1 then parts[0]
    else parts[0] + sep + Join(parts[1..], sep)
  }

  lemma SplitNone(s: string, sep: char)
    requires NoChar(s, sep)
    ensures Split(s, sep) == [s]
  {
    if s != "" {
      SplitNone(s[1..], sep);
      assert s == [s[0]] + s[1..];
    }
  }

  /** Splitting distributes over a separator placed after a separator-free part. */
  lemma SplitCons(head: string, sep: char, tail: string)
    requires NoChar(head, sep)
    ensures Split(head + [sep] + tail, sep) == [head] + Split(tail, sep)
  {
    var s := head + [sep] + tail;
    if head == "" {
      assert s[1..] == tail;
    } else {
      SplitCons(head[1..], sep, tail);
      assert s[1..] == head[1..] + [sep] + tail;
      assert head == [head[0]] + head[1..];
    }
  }

  /** Splitting undoes joining when no part contains the separator. */
  lemma {:induction false} SplitJoin(parts: seq<string>, sep: char)
    requires parts != []
    requires forall p :: p in parts ==> NoChar(p, sep)
    ensures Split(Join(parts, [sep]), sep) == parts
  {
    if |parts| == 1 {
      SplitNone(parts[0], sep);
      assert parts == [parts[0]];
    } else {
      SplitJoin(parts[1..], sep);
      SplitCons(parts[0], sep, Join(parts[1..], [sep]));
      assert parts == [parts[0]] + parts[1..];
    }
  }

  lemma SplitStep(c: char, s: string, sep: char)
    ensures var rest := Split(s, sep);
            Split([c] + s, sep) == if c == sep then [""] + rest else [[c] + rest[0]] + rest[1..]
  {
    assert ([c] + s)[1..] == s;
  }

  lemma {:induction false} SplitAppend(a: string, sep: char, b: string)
    ensures Split(a + [sep] + b, sep) == Split(a, sep) + Split(b, sep)
  {
    if a == "" {
      assert a + [sep] + b == [sep] + b;
      SplitStep(sep, b, sep);
    } else {
      var c, t := a[0], a[1..];
      SplitAppend(t, sep, b);
      assert a + [sep] + b == [c] + (t + [sep] + b);
      assert a == [c] + t;
      SplitStep(c, t + [sep] + b, sep);
      SplitStep(c, t, sep);
      PrependFirst(Split(t, sep), Split(b, sep), c);
    }
  }

  lemma PrependFirst(ra: seq<string>, rb: seq<string>, c: char)
    requires ra != []
    ensures [""] + (ra + rb) == [""] + ra + rb
    ensures [[c] + (ra + rb)[0]] + (ra + rb)[1..] == [[c] + ra[0]] + ra[1..] + rb
  {
  }

  lemma JoinAppend(a: seq<string>, b: seq<string>, sep: string)
    requires a != [] && b != []
    ensures Join(a + b, sep) == Join(a, sep) + sep + Join(b, sep)
  {
    if |a| == 1 {
      assert (a + b)[1..] == b;
    } else {
      JoinAppend(a[1..], b, sep);
      assert (a + b)[1..] == a[1..] + b;
    }
  }

  /** Position of the first `c`, or the length when there is none. */
  function IndexOf(s: string, c: char): (i: nat)
    ensures i <= |s|
    ensures i < |s| ==> s[i] == c
    ensures forall j :: 0 <= j < i ==> s[j] != c
  {
    if s == "" || s[0] == c then 0 else 1 + IndexOf(s[1..], c)
  }

  /** `strings.Cut` on a one-character separator: the text before it, the text after it, and whether it occurs. */
  function Cut(s: string, c: char): (r: (string, string, bool))
    ensures r.2 ==> s == r.0 + [c] + r.1
    ensures !r.2 ==> s == r.0 && r.1 == ""
    ensures NoChar(r.0, c)
  {
    var i := IndexOf(s, c);
    if i < |s| then (s[..i], s[i + 1..], true) else (s, "", false)
  }

  lemma CutAt(head: string, c: char, tail: string)
    requires NoChar(head, c)
    ensures Cut(head + [c] + tail, c) == (head, tail, true)
  {
    var s := head + [c] + tail;
    assert s[|head|] == c;
    assert forall j :: 0 <= j < |head| ==> s[j] == head[j];
    var i := IndexOf(s, c);
    assert i == |head|;
    assert s[..i] == head && s[i + 1..] == tail;
  }

  /** The text after the last `c` (the whole string when there is none). */
  function AfterLast(s: string, c: char): (r: string)
    ensures NoChar(r, c)
  {
    if NoChar(s, c) then s else AfterLast(s[IndexOf(s, c) + 1..], c)
  }

  lemma AfterLastAt(head: string, c: char, tail: string)
    requires NoChar(tail, c)
    ensures AfterLast(head + [c] + tail, c) == tail
  {
    var s := head + [c] + tail;
    assert s[|head|] == c;
    var i := IndexOf(s, c);
    if i == |head| {
      assert s[i + 1..] == tail;
    } else {
      assert i < |head|;
      assert s[i + 1..] == head[i + 1..] + [c] + tail;
      AfterLastAt(head[i + 1..], c, tail);
    }
  }
}
