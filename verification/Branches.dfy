/** Branch metadata of a Prop: the storage-side normal form with its encoding
    (`internal/storage/scans_props.go`) and the API-side normaliser (`internal/prop/helpers.go`). */
module Branches {
  import opened Text

  datatype Branch = Branch(name: string, isDefault: bool, headSha: string, lastSyncedAt: Option<int>)

  const ZERO := Branch("", false, "", None)

  // ---------------------------------------------------------------- sorting names

  /** Byte order of Go strings (for Unicode scalars, code point order). */
  predicate Less(a: string, b: string) {
    b != "" && (a == "" || a[0] < b[0] || (a[0] == b[0] && Less(a[1..], b[1..])))
  }

  lemma LessTotal(a: string, b: string)
    ensures a == b || Less(a, b) || Less(b, a)
    ensures !(Less(a, b) && Less(b, a)) && !Less(a, a)
  {
    if a != "" && b != "" && a[0] == b[0] {
      LessTotal(a[1..], b[1..]);
      assert a == [a[0]] + a[1..] && b == [b[0]] + b[1..];
    }
    if a != "" { LessIrreflexive(a); }
  }

  lemma LessIrreflexive(a: string)
    ensures !Less(a, a)
  {
  }

  lemma LessTransitive(a: string, b: string, c: string)
    requires Less(a, b) && Less(b, c)
    ensures Less(a, c)
  {
    if a != "" && a[0] == b[0] && b[0] == c[0] {
      LessTransitive(a[1..], b[1..], c[1..]);
    }
  }

  predicate Sorted(s: seq<string>) {
    forall i, j :: 0 <= i < j < |s| ==> Less(s[i], s[j])
  }

  function Elements(s: seq<string>): set<string> {
    set x | x in s
  }

  lemma ElementsSnoc(s: seq<string>, x: string)
    ensures Elements(s + [x]) == Elements(s) + {x}
  {
  }

  /** A strictly sorted list is determined by its elements. */
  lemma {:induction false} SortedUnique(a: seq<string>, b: seq<string>)
    requires Sorted(a) && Sorted(b) && Elements(a) == Elements(b)
    ensures a == b
  {
    assert b != [] ==> b[0] in Elements(b) && b[0] in Elements(a) && b[0] in a;
    if a != [] {
      assert a[0] in Elements(a) && a[0] in Elements(b) && a[0] in b;
      var i :| 0 <= i < |b| && b[i] == a[0];
      var j :| 0 <= j < |a| && a[j] == b[0];
      LessTotal(a[0], b[0]);
      assert a[0] == b[0];
      TailElements(a);
      TailElements(b);
      SortedUnique(a[1..], b[1..]);
      assert a == [a[0]] + a[1..] && b == [b[0]] + b[1..];
    }
  }

  lemma TailElements(a: seq<string>)
    requires a != [] && Sorted(a)
    ensures Elements(a[1..]) == Elements(a) - {a[0]}
  {
    forall x ensures x in Elements(a[1..]) <==> x in Elements(a) - {a[0]} {
      if x in a[1..] {
        var i :| 0 <= i < |a[1..]| && a[1..][i] == x;
        assert a[i + 1] == x;
        LessIrreflexive(x);
      }
      if x in Elements(a) - {a[0]} {
        var i :| 0 <= i < |a| && a[i] == x;
        assert a[1..][i - 1] == x;
      }
    }
  }

  function Insert(s: seq<string>, x: string): (r: seq<string>)
    requires Sorted(s) && x !in s
    ensures Sorted(r) && Elements(r) == Elements(s) + {x}
  {
    if s == [] then [x]
    else
      LessTotal(x, s[0]);
      assert s[0] in s;
      if Less(x, s[0]) then
        assert forall j :: 0 < j < |s| ==> Less(x, s[j]) by {
          forall j | 0 < j < |s| ensures Less(x, s[j]) { LessTransitive(x, s[0], s[j]); }
        }
        var r := [x] + s;
        assert forall y :: y in r <==> y == x || y in s;
        r
      else
        var t := Insert(s[1..], x);
        var r := [s[0]] + t;
        assert forall y :: y in s <==> y == s[0] || y in s[1..];
        assert forall y :: y in t ==> Less(s[0], y) by {
          forall y | y in t ensures Less(s[0], y) {
            assert y in Elements(t);
            if y != x { assert y in s[1..]; }
          }
        }
        assert Elements(r) == Elements(s) + {x} by {
          forall y ensures y in Elements(r) <==> y in Elements(s) + {x} {
            assert y in t <==> y in Elements(t);
          }
        }
        r
  }

  /** `sort.Strings` on distinct names. */
  method SortStrings(names: seq<string>) returns (sorted: seq<string>)
    requires forall i, j :: 0 <= i < j < |names| ==> names[i] != names[j]
    ensures Sorted(sorted) && Elements(sorted) == Elements(names)
  {
    sorted := [];
    for i := 0 to |names|
      invariant Sorted(sorted) && Elements(sorted) == Elements(names[..i])
    {
      assert names[i] !in names[..i];
      assert names[i] !in Elements(sorted);
      sorted := Insert(sorted, names[i]);
      assert names[..i + 1] == names[..i] + [names[i]];
    }
    assert names[..|names|] == names;
  }

  // ---------------------------------------------------------------- order with the default first

  /** Default branch first when present, everything else strictly sorted. */
  predicate InOrder(default: string, names: seq<string>) {
    if default != "" && default in names
    then names[0] == default && Sorted(names[1..]) && default !in names[1..]
    else Sorted(names)
  }

  lemma InOrderUnique(default: string, a: seq<string>, b: seq<string>)
    requires InOrder(default, a) && InOrder(default, b) && Elements(a) == Elements(b)
    ensures a == b
  {
    assert default in a <==> default in Elements(a);
    assert default in b <==> default in Elements(b);
    if default != "" && default in a {
      forall x ensures x in Elements(a[1..]) <==> x in Elements(b[1..]) {
        assert x in a <==> x in Elements(a);
        assert x in b <==> x in Elements(b);
      }
      SortedUnique(a[1..], b[1..]);
    } else {
      SortedUnique(a, b);
    }
  }

  /** The inner append of `moveBranchFirst`: everything after position `i` moves down by one, in place. */
  method ShiftOver(names: array<string>, i: nat)
    requires i < names.Length
    modifies names
    ensures names[..names.Length - 1] == old(names[..i]) + old(names[i + 1..])
  {
    ghost var before := names[..];
    var n := names.Length - 1;
    for k := i to n
      invariant names[..k] == before[..i] + before[i + 1..k + 1]
      invariant names[k..] == before[k..]
    {
      names[k] := names[k + 1];
    }
    assert before[i + 1..n + 1] == before[i + 1..];
  }

  /** `moveBranchFirst` / `moveNameToFront`: the first entry with the name, then the others, shifted
      down over it in the same backing array; unchanged when the name is blank or not there. */
  method MoveFirst(names: array<string>, branch: string) returns (out: seq<string>)
    modifies names
    ensures branch == "" || branch !in old(names[..]) ==> out == old(names[..])
    ensures branch != "" && branch in old(names[..]) ==>
              exists i :: 0 <= i < names.Length && FirstAt(old(names[..]), branch, i)
                  && out == Fronted(old(names[..]), i)
  {
    if branch == "" {
      return names[..];
    }
    ghost var before := names[..];
    for i := 0 to names.Length
      invariant names[..] == before && branch !in before[..i]
    {
      var name := names[i];
      if name == branch {
        ShiftOver(names, i);
        out := [name] + names[..names.Length - 1];
        assert FirstAt(before, branch, i) && out == Fronted(before, i);
        return;
      }
    }
    assert before[..names.Length] == before;
    out := names[..];
  }

  predicate FirstAt(names: seq<string>, branch: string, i: nat) {
    i < |names| && names[i] == branch && branch !in names[..i]
  }

  function Fronted(names: seq<string>, i: nat): seq<string>
    requires i < |names|
  {
    [names[i]] + (names[..i] + names[i + 1..])
  }

  /** A sorted list stays sorted, and loses just that element, when one is taken out. */
  lemma RestOfSorted(names: seq<string>, i: nat)
    requires Sorted(names) && i < |names|
    ensures var rest := names[..i] + names[i + 1..];
            Sorted(rest) && names[i] !in rest && Elements(rest) + {names[i]} == Elements(names)
  {
    var rest := names[..i] + names[i + 1..];
    assert forall a :: 0 <= a < |rest| ==> rest[a] == names[if a < i then a else a + 1];
    forall a, b | 0 <= a < b < |rest| ensures Less(rest[a], rest[b]) { }
    LessIrreflexive(names[i]);
    forall x | x in names && x != names[i] ensures x in rest {
      var k :| 0 <= k < |names| && names[k] == x;
      assert rest[if k < i then k else k - 1] == x;
    }
  }

  lemma MovedInOrder(names: seq<string>, i: nat)
    requires Sorted(names) && i < |names| && names[i] != ""
    ensures InOrder(names[i], Fronted(names, i)) && Elements(Fronted(names, i)) == Elements(names)
  {
    var rest := names[..i] + names[i + 1..];
    var out := [names[i]] + rest;
    RestOfSorted(names, i);
    assert out[1..] == rest && out[0] == names[i];
    assert Elements(out) == Elements(rest) + {names[i]};
  }

  // ---------------------------------------------------------------- the record map

  function AddRecord(m: map<string, Branch>, r: Branch): map<string, Branch> {
    var name := TrimSpace(r.name);
    if name == "" then m else m[name := r.(name := name)]
  }

  function Named(m: map<string, Branch>, name: string): map<string, Branch> {
    m[name := (if name in m then m[name] else ZERO).(name := name)]
  }

  function AddName(m: map<string, Branch>, raw: string): map<string, Branch> {
    var name := TrimSpace(raw);
    if name == "" then m else Named(m, name)
  }

  function FoldRecords(records: seq<Branch>): map<string, Branch> {
    if records == [] then map[]
    else AddRecord(FoldRecords(records[..|records| - 1]), records[|records| - 1])
  }

  function FoldNames(m: map<string, Branch>, names: seq<string>): map<string, Branch> {
    if names == [] then m
    else AddName(FoldNames(m, names[..|names| - 1]), names[|names| - 1])
  }

  function RecordMap(default: string, names: seq<string>, records: seq<Branch>): map<string, Branch> {
    var m := FoldNames(FoldRecords(records), names);
    if default == "" then m else Named(m, default)
  }

  method PropBranchRecordMap(default: string, names: seq<string>, records: seq<Branch>)
        returns (byName: map<string, Branch>)
    ensures byName == RecordMap(default, names, records)
  {
    byName := map[];
    for i := 0 to |records|
      invariant byName == FoldRecords(records[..i])
    {
      assert records[..i + 1][..i] == records[..i];
      var name := TrimSpace(records[i].name);
      if name != "" {
        byName := byName[name := records[i].(name := name)];
      }
    }
    assert records[..|records|] == records;
    for i := 0 to |names|
      invariant byName == FoldNames(FoldRecords(records), names[..i])
    {
      assert names[..i + 1][..i] == names[..i];
      var name := TrimSpace(names[i]);
      if name != "" {
        var record := if name in byName then byName[name] else ZERO;
        byName := byName[name := record.(name := name)];
      }
    }
    assert names[..|names|] == names;
    if default != "" {
      var record := if default in byName then byName[default] else ZERO;
      byName := byName[default := record.(name := default)];
    }
  }

  ghost predicate SomeTrimsTo(names: seq<string>, x: string) {
    exists i :: 0 <= i < |names| && TrimSpace(names[i]) == x
  }

  /** The trimmed non-empty names that occur in the input. */
  ghost predicate Given(names: seq<string>, records: seq<Branch>, x: string) {
    x != "" && (SomeTrimsTo(names, x) || SomeTrimsTo(Names(records), x))
  }

  lemma SomeTrimsToSnoc(names: seq<string>, x: string)
    requires names != []
    ensures SomeTrimsTo(names, x) <==> SomeTrimsTo(names[..|names| - 1], x) || TrimSpace(names[|names| - 1]) == x
  {
    var n := |names| - 1;
    if SomeTrimsTo(names[..n], x) {
      var i :| 0 <= i < n && TrimSpace(names[..n][i]) == x;
      assert TrimSpace(names[i]) == x;
    }
    if SomeTrimsTo(names, x) {
      var i :| 0 <= i < |names| && TrimSpace(names[i]) == x;
      if i < n { assert TrimSpace(names[..n][i]) == x; }
    }
  }

  lemma {:induction false} FoldRecordsKeys(records: seq<Branch>, x: string)
    ensures x in FoldRecords(records) <==> Given([], records, x)
  {
    if records != [] {
      var n := |records| - 1;
      FoldRecordsKeys(records[..n], x);
      SomeTrimsToSnoc(Names(records), x);
      assert Names(records)[..n] == Names(records[..n]);
    }
  }

  lemma {:induction false} FoldNamesKeys(m: map<string, Branch>, names: seq<string>, x: string)
    ensures x in FoldNames(m, names) <==> x in m || Given(names, [], x)
  {
    if names != [] {
      FoldNamesKeys(m, names[..|names| - 1], x);
      SomeTrimsToSnoc(names, x);
    }
  }

  lemma RecordMapKeys(default: string, names: seq<string>, records: seq<Branch>)
    ensures forall x ::
              x in RecordMap(default, names, records) <==> Given(names, records, x) || (x == default && x != "")
  {
    forall x ensures x in RecordMap(default, names, records)
          <==> Given(names, records, x) || (x == default && x != "") {
      FoldRecordsKeys(records, x);
      FoldNamesKeys(FoldRecords(records), names, x);
    }
  }

  // ---------------------------------------------------------------- normalisation

  function Names(records: seq<Branch>): (r: seq<string>)
    ensures |r| == |records| && forall i :: 0 <= i < |r| ==> r[i] == records[i].name
  {
    seq(|records|, i requires 0 <= i < |records| => records[i].name)
  }

  /** `record` is what the map holds under `name`, with the name and the default flag set. */
  ghost predicate Lists(default: string, m: map<string, Branch>, name: string, record: Branch) {
    name in m && record == m[name].(name := name, isDefault := name == default)
  }

  /** `out` lists the map's records: in order, each named by its key, with exactly the default flagged. */
  ghost predicate Listing(default: string, m: map<string, Branch>, out: seq<Branch>) {
    && InOrder(default, Names(out))
    && Elements(Names(out)) == m.Keys
    && (forall i :: 0 <= i < |out| ==> Lists(default, m, out[i].name, out[i]))
  }

  /** What normalisation promises: the listing of the record map. */
  ghost predicate Normalised(default: string, names: seq<string>, records: seq<Branch>, out: seq<Branch>) {
    Listing(default, RecordMap(default, names, records), out)
  }

  lemma ListingUnique(default: string, m: map<string, Branch>, a: seq<Branch>, b: seq<Branch>)
    requires Listing(default, m, a) && Listing(default, m, b)
    ensures a == b
  {
    InOrderUnique(default, Names(a), Names(b));
    assert |a| == |b|;
    forall i | 0 <= i < |a| ensures a[i] == b[i] {
      assert Names(a)[i] == Names(b)[i];
    }
  }

  lemma FrontedInOrder(sorted: seq<string>, default: string, ordered: seq<string>)
    requires Sorted(sorted)
    requires default == "" || default !in sorted ==> ordered == sorted
    requires default != "" && default in sorted ==>
               exists i :: 0 <= i < |sorted| && FirstAt(sorted, default, i) && ordered == Fronted(sorted, i)
    ensures InOrder(default, ordered) && Elements(ordered) == Elements(sorted)
  {
    if default != "" && default in sorted {
      var i :| 0 <= i < |sorted| && FirstAt(sorted, default, i) && ordered == Fronted(sorted, i);
      MovedInOrder(sorted, i);
    }
  }

  method OrderedNames(default: string, byName: map<string, Branch>) returns (ordered: seq<string>)
    ensures InOrder(default, ordered) && Elements(ordered) == byName.Keys
  {
    var names: seq<string> := [];
    var todo := byName.Keys;
    while todo != {}
      invariant todo <= byName.Keys && Elements(names) == byName.Keys - todo
      invariant forall i, j :: 0 <= i < j < |names| ==> names[i] != names[j]
      decreases todo
    {
      var name :| name in todo;
      assert name !in Elements(names);
      ElementsSnoc(names, name);
      names := names + [name];
      todo := todo - {name};
    }
    var sorted := SortStrings(names);
    var backing := new string[|sorted|](i requires 0 <= i < |sorted| => sorted[i]);
    assert backing[..] == sorted;
    ordered := MoveFirst(backing, default);
    FrontedInOrder(sorted, default, ordered);
  }

  /** One record per ordered name is the listing of the map. */
  lemma ListedByName(default: string, byName: map<string, Branch>, ordered: seq<string>, out: seq<Branch>)
    requires InOrder(default, ordered) && Elements(ordered) == byName.Keys && |out| == |ordered|
    requires forall j :: 0 <= j < |out| ==> Lists(default, byName, ordered[j], out[j])
    ensures Listing(default, byName, out) && Names(out) == ordered
  {
    assert Names(out) == ordered;
  }

  /** The records of the map in order, each with its name and default flag set. */
  method ListRecords(default: string, byName: map<string, Branch>) returns (ordered: seq<string>, out: seq<Branch>)
    ensures Listing(default, byName, out) && ordered == Names(out)
  {
    ordered := OrderedNames(default, byName);
    out := [];
    for i := 0 to |ordered|
      invariant |out| == i
      invariant forall j :: 0 <= j < i ==> Lists(default, byName, ordered[j], out[j])
    {
      assert ordered[i] in Elements(ordered);
      var record := byName[ordered[i]];
      out := out + [record.(name := ordered[i], isDefault := ordered[i] == default)];
    }
    ListedByName(default, byName, ordered, out);
  }

  method NormalizePropBranchRecords(default: string, names: seq<string>, records: seq<Branch>)
        returns (out: seq<Branch>)
    ensures Normalised(default, names, records, out)
  {
    var byName := PropBranchRecordMap(default, names, records);
    var ordered;
    ordered, out := ListRecords(default, byName);
  }

  /** The normal form of a stored branch list, without reference to any input. */
  ghost predicate NormalForm(default: string, out: seq<Branch>) {
    && InOrder(default, Names(out))
    && (default != "" ==> default in Names(out))
    && (forall i :: 0 <= i < |out| ==> out[i].name != "" && Trimmed(out[i].name))
    && (forall i :: 0 <= i < |out| ==> (out[i].isDefault <==> out[i].name == default))
  }

  /** For a trimmed default branch the result is in normal form, and its names are exactly
      the trimmed non-empty input names plus the default. */
  lemma NormalisedIsNormalForm(default: string, names: seq<string>, records: seq<Branch>, out: seq<Branch>)
    requires Trimmed(default) && Normalised(default, names, records, out)
    ensures NormalForm(default, out)
    ensures forall x :: x in Names(out) <==> Given(names, records, x) || (x == default && x != "")
  {
    RecordMapKeys(default, names, records);
    forall x ensures x in Names(out) <==> Given(names, records, x) || (x == default && x != "") {
      assert x in Names(out) <==> x in Elements(Names(out));
    }
    forall i | 0 <= i < |out| ensures out[i].name != "" && Trimmed(out[i].name) {
      assert Names(out)[i] in Names(out);
    }
  }

  lemma OrderedDistinct(default: string, names: seq<string>, i: int, j: int)
    requires InOrder(default, names) && 0 <= i < j < |names|
    ensures names[i] != names[j]
  {
    if default != "" && default in names {
      if i == 0 {
        assert names[1..][j - 1] == names[j];
      } else {
        SortedPair(names[1..], i - 1, j - 1);
      }
    } else {
      SortedPair(names, i, j);
    }
  }

  lemma SortedPair(names: seq<string>, i: int, j: int)
    requires Sorted(names) && 0 <= i < j < |names|
    ensures names[i] != names[j]
  {
    LessIrreflexive(names[i]);
  }

  /** Names are trimmed, non-empty and distinct. */
  predicate DistinctTrimmed(records: seq<Branch>) {
    && (forall i :: 0 <= i < |records| ==> records[i].name != "" && Trimmed(records[i].name))
    && (forall i, j :: 0 <= i < j < |records| ==> records[i].name != records[j].name)
  }

  /** The map holds exactly these records, by name. */
  ghost predicate LooksUp(m: map<string, Branch>, records: seq<Branch>) {
    && (forall i :: 0 <= i < |records| ==> records[i].name in m && m[records[i].name] == records[i])
    && m.Keys == Elements(Names(records))
  }

  lemma FoldStep(m: map<string, Branch>, before: seq<Branch>, last: Branch)
    requires LooksUp(m, before) && DistinctTrimmed(before + [last])
    ensures LooksUp(AddRecord(m, last), before + [last])
  {
    var all := before + [last];
    assert all[|before|] == last;
    TrimSpaceFixed(last.name);
    assert Names(all) == Names(before) + [last.name];
    ElementsSnoc(Names(before), last.name);
    forall i | 0 <= i < |before| ensures before[i].name != last.name {
      assert all[i] == before[i];
    }
    assert AddRecord(m, last) == m[last.name := last];
  }

  /** Folding records whose names are trimmed, non-empty and distinct is looking them up by name. */
  lemma {:induction false} FoldDistinct(records: seq<Branch>)
    requires DistinctTrimmed(records)
    ensures LooksUp(FoldRecords(records), records)
  {
    if records != [] {
      var n := |records| - 1;
      FoldDistinct(records[..n]);
      assert records == records[..n] + [records[n]];
      FoldStep(FoldRecords(records[..n]), records[..n], records[n]);
    }
  }

  /** Naming branches that are already there changes nothing. */
  lemma FoldKnownNames(m: map<string, Branch>, names: seq<string>)
    requires forall i :: 0 <= i < |names| ==> Trimmed(names[i]) && names[i] in m
    requires forall x :: x in m ==> m[x].name == x
    ensures FoldNames(m, names) == m
  {
    if names != [] {
      var n := |names| - 1;
      FoldKnownNames(m, names[..n]);
      TrimSpaceFixed(names[n]);
      assert names[n] in m;
    }
  }

  /** Normal forms are fixed: normalising one again, with any subset of its own names given separately, gives it
      back. */
  lemma NormalFormFixed(default: string, names: seq<string>, records: seq<Branch>, out: seq<Branch>)
    requires NormalForm(default, records)
    requires forall i :: 0 <= i < |names| ==> names[i] in Names(records)
    requires Normalised(default, names, records, out)
    ensures out == records
  {
    forall i, j | 0 <= i < j < |records| ensures records[i].name != records[j].name {
      OrderedDistinct(default, Names(records), i, j);
    }
    assert DistinctTrimmed(records);
    FoldDistinct(records);
    var m := FoldRecords(records);
    forall x | x in m ensures m[x].name == x {
      assert x in Elements(Names(records));
      var i :| 0 <= i < |records| && records[i].name == x;
    }
    forall i | 0 <= i < |names| ensures Trimmed(names[i]) && names[i] in m {
      var k :| 0 <= k < |records| && records[k].name == names[i];
    }
    FoldKnownNames(m, names);
    assert RecordMap(default, names, records) == m by {
      if default != "" {
        assert default in Names(records);
        assert default in m;
        assert m[default].(name := default) == m[default];
      }
    }
    assert Listing(default, m, records);
    ListingUnique(default, m, out, records);
  }

  // ---------------------------------------------------------------- when normalisation is idempotent

  /** An untrimmed default branch is listed first as a bare record. */
  lemma UntrimmedDefaultIsBare(default: string, names: seq<string>, records: seq<Branch>)
    requires !Trimmed(default)
    ensures default in RecordMap(default, names, records)
    ensures RecordMap(default, names, records)[default] == ZERO.(name := default)
  {
    FoldRecordsKeys(records, default);
    FoldNamesKeys(FoldRecords(records), names, default);
    TrimSpaceFixed(default);
    forall raw ensures TrimSpace(raw) != default { assert Trimmed(TrimSpace(raw)); }
  }

  lemma {:induction false} FoldRecordsCons(first: Branch, rest: seq<Branch>)
    ensures FoldRecords([first] + rest) == AddRecord(map[], first) + FoldRecords(rest)
  {
    var all := [first] + rest;
    if rest == [] {
      assert all[..|all| - 1] == [];
      assert FoldRecords([]) == map[];
    } else {
      var n := |rest| - 1;
      FoldRecordsCons(first, rest[..n]);
      assert all[..|all| - 1] == [first] + rest[..n];
      AddRecordPlus(AddRecord(map[], first), FoldRecords(rest[..n]), rest[n]);
    }
  }

  lemma AddRecordPlus(a: map<string, Branch>, b: map<string, Branch>, r: Branch)
    ensures AddRecord(a + b, r) == a + AddRecord(b, r)
  {
  }

  /** A listing with an untrimmed default: the bare default first, then distinct trimmed records. */
  lemma UntrimmedListing(default: string, names: seq<string>, records: seq<Branch>, out: seq<Branch>)
    requires !Trimmed(default) && Normalised(default, names, records, out)
    ensures out != [] && out[0] == ZERO.(name := default, isDefault := true) && DistinctTrimmed(out[1..])
    ensures forall i :: 1 <= i < |out| ==> out[i].name != default
  {
    RecordMapKeys(default, names, records);
    UntrimmedDefaultIsBare(default, names, records);
    assert default in Elements(Names(out));
    assert Names(out)[0] == default;
    assert out[0].name == default;
    forall i, j | 0 <= i < j < |out| ensures out[i].name != out[j].name {
      OrderedDistinct(default, Names(out), i, j);
    }
    forall i | 1 <= i < |out| ensures out[i].name != "" && Trimmed(out[i].name) {
      assert Lists(default, RecordMap(default, names, records), out[i].name, out[i]);
      assert Given(names, records, out[i].name);
    }
    assert forall i :: 0 <= i < |out[1..]| ==> out[1..][i] == out[i + 1];
  }

  /** Folding such a listing again: its tail by name, plus the trimmed default unless that is
      blank or the tail has one. */
  ghost predicate TailAndTrimmed(m: map<string, Branch>, default: string, rest: seq<Branch>) {
    && m.Keys == Elements(Names(rest)) + (if TrimSpace(default) == "" then {} else {TrimSpace(default)})
    && (forall i :: 0 <= i < |rest| ==> rest[i].name in m && m[rest[i].name] == rest[i])
  }

  lemma SecondFold(default: string, rest: seq<Branch>)
    requires DistinctTrimmed(rest)
    ensures TailAndTrimmed(FoldRecords([ZERO.(name := default, isDefault := true)] + rest), default, rest)
  {
    var first := ZERO.(name := default, isDefault := true);
    FoldDistinct(rest);
    FoldRecordsCons(first, rest);
    var m := FoldRecords(rest);
    assert AddRecord(map[], first).Keys == if TrimSpace(default) == "" then {} else {TrimSpace(default)};
    assert (AddRecord(map[], first) + m).Keys == AddRecord(map[], first).Keys + m.Keys;
  }

  lemma NamedTail(m: map<string, Branch>, default: string, rest: seq<Branch>)
    requires TailAndTrimmed(m, default, rest)
    requires forall i :: 0 <= i < |rest| ==> rest[i].name != default
    ensures var again := Named(m, default);
            && again.Keys == {default} + Elements(Names(rest))
                             + (if TrimSpace(default) == "" then {} else {TrimSpace(default)})
            && forall i :: 0 <= i < |rest| ==> rest[i].name in again && again[rest[i].name] == rest[i]
  {
  }

  lemma SecondMapUntrimmed(default: string, names: seq<string>, records: seq<Branch>, out: seq<Branch>)
    requires !Trimmed(default) && Normalised(default, names, records, out)
    ensures out != [] && out[0] == ZERO.(name := default, isDefault := true)
    ensures var again, t := RecordMap(default, [], out), TrimSpace(default);
            && again.Keys == Elements(Names(out)) + (if t == "" then {} else {t})
            && default in again && again[default] == ZERO.(name := default)
            && forall i :: 1 <= i < |out| ==> out[i].name in again && again[out[i].name] == out[i]
  {
    UntrimmedListing(default, names, records, out);
    var rest := out[1..];
    assert out == [ZERO.(name := default, isDefault := true)] + rest;
    assert forall i :: 0 <= i < |rest| ==> rest[i] == out[i + 1];
    SecondFold(default, rest);
    NamedTail(FoldRecords(out), default, rest);
    UntrimmedDefaultIsBare(default, [], out);
    SecondKeys(default, rest, out);
    assert RecordMap(default, [], out) == Named(FoldRecords(out), default);
    assert forall i :: 1 <= i < |out| ==> out[i] == rest[i - 1];
  }

  lemma SecondKeys(default: string, rest: seq<Branch>, out: seq<Branch>)
    requires out == [ZERO.(name := default, isDefault := true)] + rest
    ensures Elements(Names(out)) == {default} + Elements(Names(rest))
  {
    assert Names(out) == [default] + Names(rest);
  }

  /** Exactly when normalising a second time changes nothing: the default branch is trimmed,
      or is blank, or its trimmed form was given as a branch of its own. */
  lemma IdempotentIff(default: string, names: seq<string>, records: seq<Branch>, out: seq<Branch>, again: seq<Branch>)
    requires Normalised(default, names, records, out)
    requires Normalised(default, [], out, again)
    ensures again == out <==>
            Trimmed(default) || TrimSpace(default) == "" || Given(names, records, TrimSpace(default))
  {
    var t := TrimSpace(default);
    if Trimmed(default) {
      NormalisedIsNormalForm(default, names, records, out);
      NormalFormFixed(default, [], out, again);
    } else {
      RecordMapKeys(default, names, records);
      SecondMapUntrimmed(default, names, records, out);
      var m' := RecordMap(default, [], out);
      TrimSpaceFixed(default);
      assert t != default;
      if t == "" || Given(names, records, t) {
        if t != "" {
          assert t in RecordMap(default, names, records);
          assert t in Elements(Names(out));
        }
        assert Elements(Names(out)) == m'.Keys;
        assert Listing(default, m', out) by {
          forall i | 0 <= i < |out|
            ensures Lists(default, m', out[i].name, out[i])
          {
            if i > 0 { assert out[i].name in m' && m'[out[i].name] == out[i]; }
          }
        }
        ListingUnique(default, m', again, out);
      } else {
        assert t in m'.Keys;
        assert t in Elements(Names(again));
        assert t !in Elements(Names(out));
      }
    }
  }

  /** The condition is needed: a padded default branch with no other branch grows on each pass. */
  lemma PaddedDefaultGrows(out: seq<Branch>, again: seq<Branch>)
    requires Normalised(" main", [], [], out) && Normalised(" main", [], out, again)
    ensures again != out
  {
    assert !Trimmed(" main");
    TrimMain();
    IdempotentIff(" main", [], [], out, again);
  }

  lemma TrimMain()
    ensures TrimSpace(" main") == "main"
  {
    assert " main"[1..] == "main";
    assert TrimSpaceLeft("main") == "main";
  }

  // ---------------------------------------------------------------- the stored form

  /** The `branches_json` column: a record array, or a name array written by an
      older version, or JSON null, or text that decodes to neither array. */
  datatype Stored = Records(records: seq<Branch>) | LegacyNames(names: seq<string>) | Null | Malformed

  /** A Prop on its way to its row. */
  class Prop {
    var defaultBranch: string
    var branches: seq<string>
    var branchRecords: seq<Branch>

    constructor (defaultBranch: string, branches: seq<string>, branchRecords: seq<Branch>)
      ensures this.defaultBranch == defaultBranch && this.branches == branches && this.branchRecords == branchRecords
    {
      this.defaultBranch, this.branches, this.branchRecords := defaultBranch, branches, branchRecords;
    }

    /** `encodePropBranches` normalises the Prop in place and writes its records. */
    method EncodeBranches() returns (stored: Stored)
      modifies this
      ensures defaultBranch == old(defaultBranch)
      ensures Normalised(old(defaultBranch), old(branches), old(branchRecords), branchRecords)
      ensures branches == Names(branchRecords) && stored == Records(branchRecords)
    {
      branchRecords := NormalizePropBranchRecords(defaultBranch, branches, branchRecords);
      branches := Names(branchRecords);
      stored := Records(branchRecords);
    }
  }

  /** `decodePropBranches`: null and malformed text are errors; both array forms are normalised. */
  method DecodePropBranches(stored: Stored, default: string)
        returns (ok: bool, names: seq<string>, records: seq<Branch>)
    ensures ok <==> stored.Records? || stored.LegacyNames?
    ensures stored.Records? ==> Normalised(default, [], stored.records, records)
    ensures stored.LegacyNames? ==> Normalised(default, stored.names, [], records)
    ensures ok ==> names == Names(records)
  {
    match stored
    case Null => return false, [], [];
    case Malformed => return false, [], [];
    case Records(rs) =>
      records := NormalizePropBranchRecords(default, [], rs);
      return true, Names(records), records;
    case LegacyNames(ns) =>
      records := NormalizePropBranchRecords(default, ns, []);
      return true, Names(records), records;
  }

  lemma LegacyNamesDecode(default: string, encoded: seq<Branch>, legacy: seq<Branch>)
    requires Trimmed(default) && NormalForm(default, encoded)
    requires Normalised(default, Names(encoded), [], legacy)
    ensures Names(legacy) == Names(encoded)
  {
    NormalisedIsNormalForm(default, Names(encoded), [], legacy);
    forall x ensures x in Elements(Names(legacy)) <==> x in Elements(Names(encoded)) {
      if x in Names(encoded) {
        var i :| 0 <= i < |encoded| && Names(encoded)[i] == x;
        TrimSpaceFixed(x);
        assert TrimSpace(Names(encoded)[i]) == x;
      }
      if Given(Names(encoded), [], x) {
        var i :| 0 <= i < |Names(encoded)| && TrimSpace(Names(encoded)[i]) == x;
        TrimSpaceFixed(Names(encoded)[i]);
      }
    }
    InOrderUnique(default, Names(legacy), Names(encoded));
  }

  /** Main result: encoding a Prop with a trimmed default branch (which is how Props are
      stored) and decoding the column gives the encoded records back, encoding that again
      changes nothing, and decoding just the names as a legacy array gives the same names. */
  lemma EncodeDecodeIdentity(default: string, names: seq<string>, records: seq<Branch>, encoded: seq<Branch>,
                             decoded: seq<Branch>, reencoded: seq<Branch>, legacy: seq<Branch>)
    requires Trimmed(default)
    requires Normalised(default, names, records, encoded)
    requires Normalised(default, [], encoded, decoded)
    requires Normalised(default, Names(decoded), decoded, reencoded)
    requires Normalised(default, Names(encoded), [], legacy)
    ensures decoded == encoded && reencoded == encoded && Names(legacy) == Names(encoded)
  {
    NormalisedIsNormalForm(default, names, records, encoded);
    NormalFormFixed(default, [], encoded, decoded);
    NormalFormFixed(default, Names(decoded), decoded, reencoded);
    LegacyNamesDecode(default, encoded, legacy);
  }

  // ---------------------------------------------------------------- the API side

  /** Each record has its own sync time, or without one the given time, and is otherwise the same. */
  predicate TimesFilled(listed: seq<Branch>, out: seq<Branch>, syncedAt: int) {
    && |out| == |listed|
    && forall i :: 0 <= i < |listed| ==>
      out[i] == listed[i].(lastSyncedAt := Some(listed[i].lastSyncedAt.GetOr(syncedAt)))
  }

  method FillTimes(listed: seq<Branch>, syncedAt: int) returns (out: seq<Branch>)
    ensures TimesFilled(listed, out, syncedAt)
  {
    out := [];
    for i := 0 to |listed|
      invariant TimesFilled(listed[..i], out, syncedAt)
    {
      var r := listed[i];
      if r.lastSyncedAt.None? { r := r.(lastSyncedAt := Some(syncedAt)); }
      out := out + [r];
    }
    assert listed[..|listed|] == listed;
  }

  /** `normalizeBranchRecords`: same map and order for the trimmed default, missing sync times filled in. */
  method NormalizeBranchRecords(rawDefault: string, records: seq<Branch>, syncedAt: int)
    returns (branches: seq<string>, branchRecords: seq<Branch>)
    ensures branches == Names(branchRecords)
    ensures NormalForm(TrimSpace(rawDefault), branchRecords)
    ensures forall i :: 0 <= i < |branchRecords| ==> branchRecords[i].lastSyncedAt.Some?
    ensures exists listed ::
              Normalised(TrimSpace(rawDefault), [], records, listed) && TimesFilled(listed, branchRecords, syncedAt)
  {
    var default := TrimSpace(rawDefault);
    var byName := PropBranchRecordMap(default, [], records);
    var listed;
    branches, listed := ListRecords(default, byName);
    branchRecords := FillTimes(listed, syncedAt);
    assert Normalised(default, [], records, listed);
    ApiNormalForm(default, records, listed, branchRecords, syncedAt);
  }

  lemma ApiNormalForm(default: string, records: seq<Branch>, listed: seq<Branch>, out: seq<Branch>, syncedAt: int)
    requires Trimmed(default) && Normalised(default, [], records, listed) && TimesFilled(listed, out, syncedAt)
    ensures NormalForm(default, out) && Names(out) == Names(listed)
  {
    NormalisedIsNormalForm(default, [], records, listed);
    assert Names(out) == Names(listed);
    forall i | 0 <= i < |out|
      ensures out[i].name != "" && Trimmed(out[i].name)
      ensures out[i].isDefault <==> out[i].name == default
    {
      assert listed[i].name == out[i].name;
    }
  }

  /** Storing what the API side normalised keeps it as it is. */
  lemma ApiOutputUnchanged(default: string, apiRecords: seq<Branch>, stored: seq<Branch>)
    requires NormalForm(default, apiRecords)
    requires Normalised(default, Names(apiRecords), apiRecords, stored)
    ensures stored == apiRecords
  {
    NormalFormFixed(default, Names(apiRecords), apiRecords, stored);
  }
}
