/** Docker build arguments: the comma-separated input syntax (`internal/domain/helpers.go`)
    and the argument map that goes into a build's identity digest
    (`internal/buildrecord/plans.go`). */
module BuildArgs {
  import opened Text

  predicate NameStart(c: char) {
    'A' <= c <= 'Z' || 'a' <= c <= 'z' || c == '_'
  }

  predicate NameChar(c: char) {
    NameStart(c) || '0' <= c <= '9'
  }

  /** `^[A-Za-z_][A-Za-z0-9_]*$` */
  predicate ArgName(key: string) {
    key != "" && NameStart(key[0]) && forall i :: 0 <= i < |key| ==> NameChar(key[i])
  }

  datatype ArgPart = ArgPart(value: string, effective: bool, valid: bool)

  function NormalizePart(raw: string): ArgPart {
    var text := TrimSpace(raw);
    if text == "" then ArgPart("", false, true)
    else
      var (key0, value0, hasValue) := Cut(text, '=');
      var key, value := TrimSpace(key0), TrimSpace(value0);
      if key == "" then ArgPart("", false, true)
      else if !ArgName(key) then ArgPart("", false, false)
      else if hasValue then ArgPart(key + "=" + value, true, true)
      else ArgPart(key, true, true)
  }

  /** The entries of the effective parts in order, or nothing when some part is malformed. */
  function Collect(parts: seq<ArgPart>): (r: Option<seq<string>>)
    ensures r.Some? <==> forall i :: 0 <= i < |parts| ==> parts[i].valid
  {
    if parts == [] then Some([])
    else
      var n := |parts| - 1;
      var head := Collect(parts[..n]);
      if head.None? || !parts[n].valid then None
      else Some(head.value + (if parts[n].effective then [parts[n].value] else []))
  }

  function NormalizeAll(parts: seq<string>): (r: seq<ArgPart>)
    ensures |r| == |parts| && forall i :: 0 <= i < |parts| ==> r[i] == NormalizePart(parts[i])
  {
    seq(|parts|, i requires 0 <= i < |parts| => NormalizePart(parts[i]))
  }

  /** Accepted exactly when every comma-separated part is well formed. */
  function Parse(raw: string): (r: Option<seq<string>>)
    ensures r.Some? <==> forall part :: part in NormalizeAll(Split(raw, ',')) ==> part.valid
  {
    Collect(NormalizeAll(Split(raw, ',')))
  }

  lemma CollectStep(parts: seq<ArgPart>, i: nat)
    requires i < |parts|
    ensures Collect(parts[..i + 1]) ==
            var head := Collect(parts[..i]);
            if head.None? || !parts[i].valid then None
            else Some(head.value + (if parts[i].effective then [parts[i].value] else []))
  {
    assert parts[..i + 1][..i] == parts[..i];
  }

  /** `ParseDockerBuildArgs`: stop at the first malformed part, otherwise collect the entries. */
  method ParseDockerBuildArgs(raw: string) returns (out: seq<string>, ok: bool)
    ensures Parse(raw) == if ok then Some(out) else None
  {
    out := [];
    var parts := Split(raw, ',');
    ghost var all := NormalizeAll(parts);
    for i := 0 to |parts|
      invariant Collect(all[..i]) == Some(out)
    {
      var normalized := NormalizePart(parts[i]);
      ghost var part := all[i];
      assert normalized == part;
      if !normalized.valid {
        assert Collect(all).None?;
        return [], false;
      }
      CollectStep(all, i);
      if normalized.effective {
        out := out + [normalized.value];
      } else {
        assert out + [] == out;
      }
    }
    assert all[..|parts|] == all;
    ok := true;
  }

  // ---------------------------------------------------------------- canonical entries

  /** A list entry in its printed form: a name, or a name, `=` and a trimmed value, without commas. */
  predicate Canonical(entry: string) {
    var (key, value, _) := Cut(entry, '=');
    ArgName(key) && Trimmed(value) && NoChar(entry, ',')
  }

  /** A letter or underscore, and then letters, digits and underscores. */
  predicate Name(key: string) {
    && key != "" && !('0' <= key[0] <= '9')
    && forall c :: c in key ==> 'A' <= c <= 'Z' || 'a' <= c <= 'z' || '0' <= c <= '9' || c == '_'
  }

  lemma ArgNameIff(key: string)
    ensures ArgName(key) <==> Name(key)
  {
    if ArgName(key) {
      forall c | c in key ensures NameChar(c) { }
    }
    if Name(key) {
      assert key[0] in key;
      forall i | 0 <= i < |key| ensures NameChar(key[i]) { assert key[i] in key; }
    }
  }

  lemma NormalizedPair(part: string, key: string, b: string, value: string)
    requires Blank(b) && Name(key) && TrimSpace(part) == key + b + "=" + value
    ensures NormalizePart(part) == ArgPart(key + "=" + TrimSpace(value), true, true)
  {
    ArgNameIff(key);
    NameHasNoSpecials(key);
    assert key + b + "=" + value == (key + b) + ['='] + value;
    CutAt(key + b, '=', value);
    TrimSpaceAround("", key, b);
    assert "" + key + b == key + b;
  }

  /** What trimming leaves of the text after a name: nothing, or the value with the blanks before it. */
  lemma TrimmedAfter(a: string, start: string, value: string) returns (rest: string)
    requires Blank(a) && start != "" && Trimmed(start)
    ensures TrimSpace(a + start + value) == start + rest && TrimSpace(rest) == TrimSpace(value)
  {
    var before, after := TrimSpaceParts(value);
    var kept := TrimSpace(value);
    if kept == "" {
      rest := "";
      assert value == before + after && Blank(value);
      TrimSpaceAround(a, start, value);
      TrimSpaceFixed("");
      assert start + "" == start;
    } else {
      rest := before + kept;
      var middle := start + rest;
      assert middle[|middle| - 1] == kept[|kept| - 1] && middle[0] == start[0];
      TrimSpaceAround(a, middle, after);
      assert a + start + value == a + middle + after;
      TrimSpaceAround(before, kept, "");
      assert before + kept + "" == rest;
    }
  }

  /** Blanks around name and value do not matter: the entry is the name, `=` and the trimmed value. */
  lemma PaddedArg(a: string, key: string, b: string, value: string)
    requires Blank(a) && Blank(b) && Name(key)
    ensures NormalizePart(a + key + b + "=" + value) == ArgPart(key + "=" + TrimSpace(value), true, true)
  {
    ArgNameIff(key);
    NameHasNoSpecials(key);
    var rest := TrimmedAfter(a, key + b + "=", value);
    assert a + (key + b + "=") + value == a + key + b + "=" + value;
    NormalizedPair(a + key + b + "=" + value, key, b, rest);
  }

  /** A part that is just a name is an entry too. */
  lemma PaddedName(a: string, key: string, b: string)
    requires Blank(a) && Blank(b) && Name(key)
    ensures NormalizePart(a + key + b) == ArgPart(key, true, true)
  {
    ArgNameIff(key);
    NameHasNoSpecials(key);
    TrimSpaceAround(a, key, b);
    CutNone(key, '=');
    TrimSpaceFixed(key);
  }

  /** A part without a name is dropped, and one whose name is not one makes the whole list invalid. */
  lemma OtherParts(part: string)
    ensures var key := TrimSpace(Cut(TrimSpace(part), '=').0);
            && (key == "" ==> NormalizePart(part) == ArgPart("", false, true))
            && (key != "" && !Name(key) ==> !NormalizePart(part).valid)
  {
    ArgNameIff(TrimSpace(Cut(TrimSpace(part), '=').0));
  }

  lemma NameHasNoSpecials(key: string)
    requires ArgName(key)
    ensures Trimmed(key) && NoChar(key, '=') && NoChar(key, ',')
  {
    assert NameChar(key[0]) && NameChar(key[|key| - 1]);
  }

  lemma CutNone(s: string, c: char)
    requires NoChar(s, c)
    ensures Cut(s, c) == (s, "", false)
  {
    assert IndexOf(s, c) == |s|;
  }

  /** Every entry the normaliser emits for a comma-free part is canonical. */
  lemma NormalizedIsCanonical(part: string)
    requires NoChar(part, ',') && NormalizePart(part).effective && NormalizePart(part).valid
    ensures Canonical(NormalizePart(part).value)
  {
    var text := TrimSpace(part);
    var (key0, value0, hasValue) := Cut(text, '=');
    var key, value := TrimSpace(key0), TrimSpace(value0);
    NameHasNoSpecials(key);
    if hasValue {
      assert forall c :: c in value ==> c in text;
      assert key + "=" + value == key + ['='] + value;
      CutAt(key, '=', value);
    } else {
      CutNone(key, '=');
    }
  }

  /** Normalising a canonical entry gives it back. */
  lemma CanonicalIsFixed(entry: string)
    requires Canonical(entry)
    ensures NormalizePart(entry) == ArgPart(entry, true, true)
  {
    var (key, value, hasValue) := Cut(entry, '=');
    NameHasNoSpecials(key);
    assert Trimmed(entry) by {
      if hasValue {
        assert entry == key + ['='] + value;
        assert entry[|entry| - 1] == if value == "" then '=' else value[|value| - 1];
      }
    }
    TrimSpaceFixed(entry);
    TrimSpaceFixed(key);
    TrimSpaceFixed(value);
    assert key + "=" + value == key + ['='] + value;
  }

  predicate CommaFreeParts(parts: seq<ArgPart>) {
    forall i :: 0 <= i < |parts| && parts[i].valid && parts[i].effective ==> Canonical(parts[i].value)
  }

  lemma CollectCanonical(parts: seq<ArgPart>)
    requires CommaFreeParts(parts) && Collect(parts).Some?
    ensures forall i :: 0 <= i < |Collect(parts).value| ==> Canonical(Collect(parts).value[i])
  {
    if parts != [] {
      CollectCanonical(parts[..|parts| - 1]);
    }
  }

  lemma ParsedIsCanonical(raw: string)
    requires Parse(raw).Some?
    ensures forall i :: 0 <= i < |Parse(raw).value| ==> Canonical(Parse(raw).value[i])
  {
    var parts := Split(raw, ',');
    var all := NormalizeAll(parts);
    forall i | 0 <= i < |all| && all[i].valid && all[i].effective ensures Canonical(all[i].value) {
      NormalizedIsCanonical(parts[i]);
    }
    CollectCanonical(all);
  }

  lemma CollectEntries(entries: seq<string>, parts: seq<ArgPart>)
    requires |parts| == |entries| && forall i :: 0 <= i < |entries| ==> parts[i] == ArgPart(entries[i], true, true)
    ensures Collect(parts) == Some(entries)
  {
    if entries != [] {
      var n := |entries| - 1;
      CollectEntries(entries[..n], parts[..n]);
      assert entries[..n] + [entries[n]] == entries;
    }
  }

  lemma NothingParsed()
    ensures Parse("") == Some([])
  {
    assert Split("", ',') == [""];
    var parts, none: seq<string> := NormalizeAll([""]), [];
    assert parts == [ArgPart("", false, true)] && parts[..0] == [] && none + none == none;
    assert Collect(parts[..0]) == Some(none);
  }

  /** Main result: printing the parsed list with commas and parsing it again gives the
      same list, and every entry is already in its normal form. */
  lemma ParsePrintFixedPoint(raw: string)
    requires Parse(raw).Some?
    ensures Parse(Join(Parse(raw).value, ",")) == Parse(raw)
    ensures forall i :: 0 <= i < |Parse(raw).value| ==>
              NormalizePart(Parse(raw).value[i]) == ArgPart(Parse(raw).value[i], true, true)
  {
    var entries := Parse(raw).value;
    ParsedIsCanonical(raw);
    forall i | 0 <= i < |entries| ensures NormalizePart(entries[i]) == ArgPart(entries[i], true, true) {
      CanonicalIsFixed(entries[i]);
    }
    if entries == [] {
      NothingParsed();
    } else {
      forall p | p in entries ensures NoChar(p, ',') { }
      SplitJoin(entries, ',');
      assert [','] == ",";
      CollectEntries(entries, NormalizeAll(entries));
    }
  }

  // ---------------------------------------------------------------- build identity

  function EntryKey(entry: string): string {
    TrimSpace(Cut(entry, '=').0)
  }

  function EntryValue(entry: string): string {
    var (_, value, ok) := Cut(entry, '=');
    if ok then TrimSpace(value) else ""
  }

  /** What the identity digest hashes, in place of the digest itself. */
  datatype Identity = Identity(dockerfilePath: string, buildTarget: string, buildArgs: seq<string>,
        normalizedArgs: map<string, string>)

  function FirstNonEmpty(value: string, fallback: string): string {
    if TrimSpace(value) != "" then TrimSpace(value) else TrimSpace(fallback)
  }

  function KeyValues(entries: seq<string>): (r: seq<(string, string)>)
    ensures |r| == |entries| && forall i :: 0 <= i < |r| ==> r[i] == (EntryKey(entries[i]), EntryValue(entries[i]))
  {
    seq(|entries|, i requires 0 <= i < |entries| => (EntryKey(entries[i]), EntryValue(entries[i])))
  }

  /** The last pair with this key sits at `i`. */
  ghost predicate LastAt(pairs: seq<(string, string)>, key: string, i: int) {
    0 <= i < |pairs| && pairs[i].0 == key && forall j :: i < j < |pairs| ==> pairs[j].0 != key
  }

  /** The map holds exactly the non-empty keys of the list, each with the value of its last pair. */
  ghost predicate Folded(pairs: seq<(string, string)>, m: map<string, string>) {
    && (forall i :: 0 <= i < |pairs| ==> pairs[i].0 == "" || pairs[i].0 in m)
    && (forall key :: key in m ==> key != "" && exists i :: LastAt(pairs, key, i) && m[key] == pairs[i].1)
  }

  lemma FoldedStep(pairs: seq<(string, string)>, m: map<string, string>, pair: (string, string))
    requires Folded(pairs, m)
    ensures Folded(pairs + [pair], if pair.0 == "" then m else m[pair.0 := pair.1])
  {
    var all := pairs + [pair];
    var m' := if pair.0 == "" then m else m[pair.0 := pair.1];
    forall key | key in m' ensures key != "" && exists i :: LastAt(all, key, i) && m'[key] == all[i].1 {
      if key == pair.0 {
        assert LastAt(all, key, |pairs|);
      } else {
        var i :| LastAt(pairs, key, i) && m[key] == pairs[i].1;
        assert LastAt(all, key, i);
      }
    }
  }

  lemma FoldedNext(pairs: seq<(string, string)>, i: nat, m: map<string, string>)
    requires i < |pairs| && Folded(pairs[..i], m)
    ensures Folded(pairs[..i + 1], if pairs[i].0 == "" then m else m[pairs[i].0 := pairs[i].1])
  {
    FoldedStep(pairs[..i], m, pairs[i]);
    assert pairs[..i + 1] == pairs[..i] + [pairs[i]];
  }

  /** The fold is determined by the list: two maps satisfying it are equal. */
  lemma FoldedUnique(pairs: seq<(string, string)>, m: map<string, string>, m': map<string, string>)
    requires Folded(pairs, m) && Folded(pairs, m')
    ensures m == m'
  {
    forall key ensures key in m <==> key in m' {
      if key in m { var i :| LastAt(pairs, key, i) && m[key] == pairs[i].1; assert pairs[i].0 in m'; }
      if key in m' { var i :| LastAt(pairs, key, i) && m'[key] == pairs[i].1; assert pairs[i].0 in m; }
    }
    forall key | key in m ensures m[key] == m'[key] {
      var i :| LastAt(pairs, key, i) && m[key] == pairs[i].1;
      var j :| LastAt(pairs, key, j) && m'[key] == pairs[j].1;
    }
  }

  /** The map part of `IdentityForService`: fold the entries, last one winning. */
  method NormalizedArgs(args: seq<string>) returns (normalized: map<string, string>)
    ensures Folded(KeyValues(args), normalized)
  {
    normalized := map[];
    ghost var pairs := KeyValues(args);
    for i := 0 to |args|
      invariant Folded(pairs[..i], normalized)
    {
      var key, value := EntryKey(args[i]), EntryValue(args[i]);
      assert pairs[i] == (key, value);
      FoldedNext(pairs, i, normalized);
      if key != "" {
        normalized := normalized[key := value];
      }
    }
    assert pairs[..|args|] == pairs;
  }

  /** The arguments of a service: an unparseable list counts as empty. */
  function EntriesOf(raw: string): seq<string> {
    Parse(raw).GetOr([])
  }

  lemma EntriesAreCanonical(raw: string)
    ensures forall i :: 0 <= i < |EntriesOf(raw)| ==> Canonical(EntriesOf(raw)[i])
  {
    if Parse(raw).Some? { ParsedIsCanonical(raw); }
  }

  /** `IdentityForService`: parse the arguments (an unparseable list counts as empty) and fold them. */
  method IdentityForService(dockerfile: string, buildTarget: string, buildArgs: string) returns (id: Identity)
    ensures id.dockerfilePath == if TrimSpace(dockerfile) != "" then TrimSpace(dockerfile) else "Dockerfile"
    ensures id.buildTarget == TrimSpace(buildTarget)
    ensures id.buildArgs == EntriesOf(buildArgs)
    ensures Folded(KeyValues(id.buildArgs), id.normalizedArgs)
  {
    TrimSpaceFixed("Dockerfile");
    var args, ok := ParseDockerBuildArgs(buildArgs);
    if !ok { args := []; }
    var normalized := NormalizedArgs(args);
    id := Identity(FirstNonEmpty(dockerfile, "Dockerfile"), TrimSpace(buildTarget), args, normalized);
  }

  /** The keys that reach the digest are valid argument names, and each value is trimmed. */
  lemma HashedKeysAreNames(raw: string, m: map<string, string>)
    requires Folded(KeyValues(EntriesOf(raw)), m)
    ensures forall key :: key in m ==> Name(key) && Trimmed(m[key])
  {
    forall key { ArgNameIff(key); }
    var entries := EntriesOf(raw);
    EntriesAreCanonical(raw);
    forall key | key in m ensures ArgName(key) && Trimmed(m[key]) {
      var i :| LastAt(KeyValues(entries), key, i) && m[key] == KeyValues(entries)[i].1;
      assert Canonical(entries[i]);
      NameHasNoSpecials(Cut(entries[i], '=').0);
      TrimSpaceFixed(Cut(entries[i], '=').0);
    }
  }

  /** The entry is for this key. */
  predicate IsFor(entry: string, key: string) {
    entry == key || key + "=" <= entry
  }

  lemma EntryOf(entry: string, key: string)
    requires Canonical(entry) && Name(key)
    ensures IsFor(entry, key) <==> EntryKey(entry) == key
    ensures entry == key ==> EntryValue(entry) == ""
    ensures key + "=" <= entry ==> EntryValue(entry) == entry[|key| + 1..]
  {
    ArgNameIff(key);
    NameHasNoSpecials(key);
    var (k, v, ok) := Cut(entry, '=');
    NameHasNoSpecials(k);
    TrimSpaceFixed(k);
    TrimSpaceFixed(v);
    CutNone(key, '=');
    assert ok && k == key ==> entry == (key + "=") + v;
    if key + "=" <= entry { SplitsAt(entry, key); }
  }

  lemma SplitsAt(entry: string, key: string)
    requires NoChar(key, '=') && key + "=" <= entry
    ensures Cut(entry, '=') == (key, entry[|key| + 1..], true)
  {
    var rest := entry[|key| + 1..];
    assert entry[..|key| + 1] == key + ['='];
    assert entry == key + ['='] + rest;
    CutAt(key, '=', rest);
  }

  /** The value with which an entry sets this key, if it does: empty when it is just the name. */
  function Setting(entry: string, key: string): (value: Option<string>)
    ensures value.Some? <==> IsFor(entry, key)
  {
    if entry == key then Some("")
    else if key + "=" <= entry then Some(entry[|key| + 1..])
    else None
  }

  /** Main result: what is hashed under a name of an accepted list is the value of its last entry
      for it, empty when that has none. */
  lemma HashedValue(raw: string, m: map<string, string>, i: int, key: string)
    requires Folded(KeyValues(EntriesOf(raw)), m) && Name(key)
    requires 0 <= i < |EntriesOf(raw)| && IsFor(EntriesOf(raw)[i], key)
    requires forall j :: i < j < |EntriesOf(raw)| ==> !IsFor(EntriesOf(raw)[j], key)
    ensures key in m && Some(m[key]) == Setting(EntriesOf(raw)[i], key)
  {
    var entries := EntriesOf(raw);
    EntriesAreCanonical(raw);
    LastEntry(entries, i, key);
    EntryOf(entries[i], key);
    FoldedLast(KeyValues(entries), m, i, key);
  }

  lemma LastEntry(entries: seq<string>, i: int, key: string)
    requires Name(key) && forall j :: 0 <= j < |entries| ==> Canonical(entries[j])
    requires 0 <= i < |entries| && IsFor(entries[i], key) && forall j :: i < j < |entries| ==> !IsFor(entries[j], key)
    ensures LastAt(KeyValues(entries), key, i)
  {
    forall j | i <= j < |entries| ensures EntryKey(entries[j]) == key <==> j == i { EntryOf(entries[j], key); }
  }

  lemma FoldedLast(pairs: seq<(string, string)>, m: map<string, string>, i: int, key: string)
    requires Folded(pairs, m) && LastAt(pairs, key, i) && key != ""
    ensures key in m && m[key] == pairs[i].1
  {
    var k :| LastAt(pairs, key, k) && m[key] == pairs[k].1;
  }

  /** The printed list of a service's arguments is parsed back to the same list. */
  lemma PrintedEntries(raw: string)
    ensures EntriesOf(Join(EntriesOf(raw), ",")) == EntriesOf(raw)
  {
    if Parse(raw).Some? {
      ParsePrintFixedPoint(raw);
    } else {
      NothingParsed();
    }
  }

  /** Spelling does not matter to the digest: a build described by its printed argument
      list hashes the same map. */
  lemma PrintedArgsHashTheSame(raw: string, m: map<string, string>)
    requires Folded(KeyValues(EntriesOf(raw)), m)
    ensures forall printed :: Folded(KeyValues(EntriesOf(Join(EntriesOf(raw), ","))), printed) ==> printed == m
  {
    PrintedEntries(raw);
    OnlyFold(KeyValues(EntriesOf(raw)), m);
  }

  lemma OnlyFold(pairs: seq<(string, string)>, m: map<string, string>)
    requires Folded(pairs, m)
    ensures forall n :: Folded(pairs, n) ==> n == m
  {
    forall n | Folded(pairs, n) ensures n == m { FoldedUnique(pairs, m, n); }
  }
}
