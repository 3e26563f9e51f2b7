/** Runtime paths: generated project names (`internal/storage/names.go`,
    `internal/storage/store_playgrounds.go`), their validator (`internal/runtime/project.go`),
    checkout paths (`internal/optfibe/source_paths.go`), and the two path validators
    (`internal/optfibe/layout.go`, `internal/runtime/build_types.go`).

    `strings.ToLower` and `url.Parse` are parameters: every result here holds whatever they return. */
module CheckoutPaths {
  import opened Text

  // ---------------------------------------------------------------- names

  predicate Alnum(c: char) {
    'a' <= c <= 'z' || '0' <= c <= '9'
  }

  /** The characters a slug keeps: `[a-z0-9]`, and also `_` and `.` in path components. */
  predicate Kept(c: char, path: bool) {
    Alnum(c) || (path && (c == '_' || c == '.'))
  }

  /** Every run of other characters becomes one dash. */
  function ReplaceRuns(s: string, path: bool, inRun: bool): (r: string)
    ensures forall c :: c in r ==> Kept(c, path) || c == '-'
  {
    if s == "" then ""
    else if Kept(s[0], path) then [s[0]] + ReplaceRuns(s[1..], path, false)
    else (if inRun then "" else "-") + ReplaceRuns(s[1..], path, true)
  }

  /** A text that is kept as it is: kept characters, with single dashes in between. */
  predicate Dashed(s: string, path: bool) {
    && (forall c :: c in s ==> Kept(c, path) || c == '-')
    && (forall i :: 0 <= i < |s| - 1 ==> s[i] != '-' || s[i + 1] != '-')
  }

  /** The replacement never leaves two dashes in a row, nor one where a run has begun already. */
  lemma {:induction false} ReplacedIsDashed(s: string, path: bool, inRun: bool)
    ensures Dashed(ReplaceRuns(s, path, inRun), path)
    ensures var r := ReplaceRuns(s, path, inRun); inRun && r != "" ==> r[0] != '-'
  {
    if s != "" { ReplacedIsDashed(s[1..], path, !Kept(s[0], path)); }
  }

  /** The kept characters of a text, in order. */
  function KeptOf(s: string, path: bool): string {
    if s == "" then "" else (if Kept(s[0], path) then [s[0]] else "") + KeptOf(s[1..], path)
  }

  /** The replacement takes away and adds no kept character. */
  lemma {:induction false} ReplacedKeeps(s: string, path: bool, inRun: bool)
    ensures KeptOf(ReplaceRuns(s, path, inRun), path) == KeptOf(s, path)
  {
    if s != "" {
      var rest := ReplaceRuns(s[1..], path, !Kept(s[0], path));
      ReplacedKeeps(s[1..], path, !Kept(s[0], path));
      if Kept(s[0], path) {
        assert ([s[0]] + rest)[1..] == rest;
      } else {
        assert ("-" + rest)[1..] == rest && "" + rest == rest;
      }
    }
  }

  lemma {:induction false} ReplaceFixed(s: string, path: bool, inRun: bool)
    requires Dashed(s, path) && (inRun && s != "" ==> s[0] != '-')
    ensures ReplaceRuns(s, path, inRun) == s
  {
    if s != "" {
      DashedTail(s, path);
      ReplaceFixed(s[1..], path, s[0] == '-');
      assert s == [s[0]] + s[1..];
      assert s[0] == '-' ==> !Kept(s[0], path) && [s[0]] == "-";
    }
  }

  lemma DashedTail(s: string, path: bool)
    requires Dashed(s, path) && s != ""
    ensures Dashed(s[1..], path) && (Kept(s[0], path) || s[0] == '-')
    ensures s[0] == '-' && s[1..] != "" ==> s[1..][0] != '-'
  {
    assert s[0] in s;
    forall c | c in s[1..] ensures c in s { }
    forall i | 0 <= i < |s[1..]| - 1 ensures s[1..][i] != '-' || s[1..][i + 1] != '-' {
      assert s[1..][i] == s[i + 1] && s[1..][i + 1] == s[i + 2];
    }
  }

  lemma DashedTrimmed(s: string, path: bool)
    requires Dashed(s, path)
    ensures TrimSpace(s) == s
  {
    if s != "" {
      assert s[0] in s && s[|s| - 1] in s;
      assert forall c :: Kept(c, path) || c == '-' ==> !IsSpace(c);
    }
    TrimSpaceFixed(s);
  }

  function Slug(s: string, lower: string -> string): (r: string)
    ensures r != "" && Alnum(r[0])
    ensures forall c :: c in r ==> Alnum(c) || c == '-'
  {
    var out := TrimSet(ReplaceRuns(lower(TrimSpace(s)), false, false), {'-'});
    if out == "" then "fibe-distilled" else assert out[0] in out; out
  }

  /** `strconv.FormatInt(n, 36)`. */
  function Base36(n: int): (r: string)
    ensures r != "" && forall c :: c in r ==> Alnum(c) || c == '-'
    decreases n < 0, if n < 0 then -n else n
  {
    if n < 0 then "-" + Base36(-n)
    else if n < 36 then [Digit36(n)]
    else Base36(n / 36) + [Digit36(n % 36)]
  }

  function Digit36(d: int): (c: char)
    requires 0 <= d < 36
    ensures Alnum(c)
  {
    if d < 10 then '0' + d as char else 'a' + (d - 10) as char
  }

  /** The Compose project `playgroundForInsert` stores: a supplied one, or the slug of the
      trimmed name and the insertion second. */
  function ProjectForInsert(name: string, supplied: Option<string>, unixSeconds: int, lower: string -> string): string {
    if supplied.Some? then supplied.value
    else Slug(TrimSpace(name), lower) + "-" + Base36(unixSeconds)
  }

  predicate ProjectChar(c: char) {
    Alnum(c) || c == '-' || c == '_'
  }

  predicate ValidProject(project: string) {
    var p := TrimSpace(project);
    p != "" && p[0] != '-' && p[0] != '_' && forall c :: c in p ==> ProjectChar(c)
  }

  lemma ProjectCharsTrimmed(s: string)
    requires forall c :: c in s ==> ProjectChar(c)
    ensures TrimSpace(s) == s
  {
    if s != "" { assert s[0] in s && s[|s| - 1] in s; }
    TrimSpaceFixed(s);
  }

  /** A lower-case name of letters, digits and single inner dashes is its own slug. */
  lemma SlugFixed(s: string, lower: string -> string)
    requires s != "" && Dashed(s, false) && lower(s) == s && s[0] != '-' && s[|s| - 1] != '-'
    ensures Slug(s, lower) == s
  {
    DashedTrimmed(s, false);
    ReplaceFixed(s, false, false);
    TrimSetFixed(s, {'-'});
  }

  /** The number a base-36 text denotes. */
  function Value36(s: string): int {
    if s == "" then 0
    else if s[0] == '-' then -Value36(s[1..])
    else 36 * Value36(s[..|s| - 1]) + DigitValue(s[|s| - 1])
  }

  function DigitValue(c: char): int {
    if '0' <= c <= '9' then c as int - '0' as int else c as int - 'a' as int + 10
  }

  /** The text denotes the number, and has no sign unless that is negative. */
  predicate Denotes(s: string, n: int) {
    s != "" && Value36(s) == n && (n >= 0 ==> s[0] != '-')
  }

  lemma {:induction false} Base36Denotes(n: int)
    ensures Denotes(Base36(n), n)
    decreases n < 0, if n < 0 then -n else n
  {
    if n < 0 {
      Base36Denotes(-n);
      NegativeDenotes(Base36(-n), -n);
    } else if n < 36 {
      OneDigitDenotes(n);
    } else {
      Base36Denotes(n / 36);
      MoreDigitsDenote(Base36(n / 36), n / 36, n % 36);
    }
  }

  lemma NegativeDenotes(s: string, n: int)
    requires Denotes(s, n) && n > 0
    ensures Denotes("-" + s, -n)
  {
    assert ("-" + s)[1..] == s;
  }

  lemma OneDigitDenotes(d: int)
    requires 0 <= d < 36
    ensures Denotes([Digit36(d)], d)
  {
    DigitDenotes(d);
    assert [Digit36(d)][..0] == "";
  }

  lemma MoreDigitsDenote(head: string, n: int, d: int)
    requires Denotes(head, n) && n >= 0 && 0 <= d < 36
    ensures Denotes(head + [Digit36(d)], 36 * n + d)
  {
    DigitDenotes(d);
    OneMoreDigit(head, Digit36(d));
  }

  lemma DigitDenotes(d: int)
    requires 0 <= d < 36
    ensures DigitValue(Digit36(d)) == d && Digit36(d) != '-'
  {
  }

  lemma OneMoreDigit(head: string, c: char)
    requires head != "" && head[0] != '-'
    ensures Value36(head + [c]) == 36 * Value36(head) + DigitValue(c) && (head + [c])[0] != '-'
  {
    assert (head + [c])[..|head + [c]| - 1] == head;
  }

  /** Two Playgrounds of one name get different projects unless they are made in the same second. */
  lemma ProjectsDiffer(name: string, a: int, b: int, lower: string -> string)
    ensures ProjectForInsert(name, None, a, lower) == ProjectForInsert(name, None, b, lower) <==> a == b
  {
    Base36Denotes(a);
    Base36Denotes(b);
    assert Base36(a) == Base36(b) ==> a == b;
    var head := Slug(TrimSpace(name), lower) + "-";
    assert (head + Base36(a))[|head|..] == Base36(a) && (head + Base36(b))[|head|..] == Base36(b);
  }

  /** Every generated project name passes the Compose project validator. */
  lemma GeneratedProjectIsValid(name: string, unixSeconds: int, lower: string -> string)
    ensures ValidProject(ProjectForInsert(name, None, unixSeconds, lower))
  {
    var slug, stamp := Slug(TrimSpace(name), lower), Base36(unixSeconds);
    var p := slug + "-" + stamp;
    assert forall c :: c in p ==> c in slug || c == '-' || c in stamp;
    ProjectCharsTrimmed(p);
    assert p[0] == slug[0];
  }

  // ---------------------------------------------------------------- path.Clean

  /** One step of `path.Clean`'s rules over slash-separated segments. */
  function PushSegment(rooted: bool, stack: seq<string>, seg: string): seq<string> {
    if seg == "" || seg == "." then stack
    else if seg != ".." then stack + [seg]
    else if stack != [] && stack[|stack| - 1] != ".." then stack[..|stack| - 1]
    else if rooted then stack
    else stack + [seg]
  }

  function PushAll(rooted: bool, stack: seq<string>, segs: seq<string>): seq<string>
    decreases |segs|
  {
    if segs == [] then stack else PushAll(rooted, PushSegment(rooted, stack, segs[0]), segs[1..])
  }

  predicate IsAbs(p: string) {
    p != "" && p[0] == '/'
  }

  /** `path.Clean`. */
  function Clean(p: string): string {
    var out := Join(PushAll(IsAbs(p), [], Split(p, '/')), "/");
    if IsAbs(p) then "/" + out else if out == "" then "." else out
  }

  predicate Plain(seg: string) {
    seg != "" && seg != "." && seg != ".." && NoChar(seg, '/')
  }

  /** A plain segment that a file system call accepts. */
  predicate Safe(seg: string) {
    Plain(seg) && '\0' !in seg && !IsSpace(seg[|seg| - 1])
  }

  predicate AllPlain(segs: seq<string>) {
    forall i :: 0 <= i < |segs| ==> Plain(segs[i])
  }

  predicate HasParentSegment(p: string) {
    ".." in Split(p, '/')
  }

  method PathHasParentSegment(raw: string) returns (found: bool)
    ensures found <==> HasParentSegment(raw)
  {
    var parts := Split(raw, '/');
    for i := 0 to |parts|
      invariant ".." !in parts[..i]
    {
      if parts[i] == ".." { return true; }
    }
    assert parts[..|parts|] == parts;
    return false;
  }

  lemma {:induction false} PushPlain(rooted: bool, stack: seq<string>, segs: seq<string>)
    requires AllPlain(segs)
    ensures PushAll(rooted, stack, segs) == stack + segs
    decreases |segs|
  {
    if segs != [] {
      PushPlain(rooted, stack + [segs[0]], segs[1..]);
      assert stack + [segs[0]] + segs[1..] == stack + segs;
    }
  }

  lemma {:induction false} PushWithoutParents(rooted: bool, stack: seq<string>, segs: seq<string>)
    requires AllPlain(stack) && ".." !in segs
    requires forall i :: 0 <= i < |segs| ==> NoChar(segs[i], '/')
    ensures AllPlain(PushAll(rooted, stack, segs))
    decreases |segs|
  {
    if segs != [] {
      assert segs[0] in segs;
      PushWithoutParents(rooted, PushSegment(rooted, stack, segs[0]), segs[1..]);
    }
  }

  /** A rooted path never climbs above its root. */
  lemma {:induction false} RootedIsPlain(stack: seq<string>, segs: seq<string>)
    requires AllPlain(stack) && forall i :: 0 <= i < |segs| ==> NoChar(segs[i], '/')
    ensures AllPlain(PushAll(true, stack, segs))
    decreases |segs|
  {
    if segs != [] { RootedIsPlain(PushSegment(true, stack, segs[0]), segs[1..]); }
  }

  /** The text of an absolute path with these segments. */
  function Abs(segs: seq<string>): string {
    "/" + Join(segs, "/")
  }

  lemma SplitAbs(segs: seq<string>)
    requires segs != [] && AllPlain(segs)
    ensures Split(Abs(segs), '/') == [""] + segs
  {
    forall p | p in segs ensures NoChar(p, '/') { }
    SplitJoin(segs, '/');
    assert ['/'] == "/";
    SplitCons("", '/', Join(segs, "/"));
    assert "" + ['/'] + Join(segs, "/") == Abs(segs);
  }

  /** A path written with plain segments is clean. */
  lemma CleanAbs(segs: seq<string>)
    requires segs != [] && AllPlain(segs)
    ensures Clean(Abs(segs)) == Abs(segs)
    ensures !HasParentSegment(Abs(segs))
  {
    SplitAbs(segs);
    var all := [""] + segs;
    assert all[0] == "" && all[1..] == segs;
    assert PushAll(true, [], all) == PushAll(true, [], segs);
    PushPlain(true, [], segs);
    assert [] + segs == segs;
  }

  /** Cleaning an absolute path gives an absolute one of plain segments, without `..`, `.` or empty ones. */
  lemma CleanRootedIsPlain(p: string) returns (segs: seq<string>)
    requires IsAbs(p)
    ensures AllPlain(segs) && Clean(p) == Abs(segs)
    ensures segs != [] ==> Clean(Clean(p)) == Clean(p)
  {
    segs := PushAll(true, [], Split(p, '/'));
    RootedIsPlain([], Split(p, '/'));
    if segs != [] { CleanAbs(segs); }
  }

  // ---------------------------------------------------------------- checkout paths

  function SafePathComponent(raw: string, lower: string -> string): (r: string)
    ensures Safe(r)
    ensures forall c :: c in r ==> Kept(c, true) || c == '-'
  {
    var out := TrimSet(ReplaceRuns(lower(TrimSpace(raw)), true, false), {'-', '.'});
    if out == "" then "source" else
      assert out[|out| - 1] in out;
      out
  }

  /** A lower-case component of kept characters and single inner dashes is left as it is, so that
      different ones have different directories. */
  lemma SafeComponentFixed(s: string, lower: string -> string)
    requires s != "" && Dashed(s, true) && lower(s) == s
    requires s[0] !in {'-', '.'} && s[|s| - 1] !in {'-', '.'}
    ensures SafePathComponent(s, lower) == s
  {
    DashedTrimmed(s, true);
    ReplaceFixed(s, true, false);
    TrimSetFixed(s, {'-', '.'});
  }

  function TrimSuffix(s: string, suffix: string): string {
    if |suffix| <= |s| && s[|s| - |suffix|..] == suffix then s[..|s| - |suffix|] else s
  }

  function TrimPrefix(s: string, prefix: string): string {
    if prefix <= s then s[|prefix|..] else s
  }

  function ReplaceChar(s: string, from: char, to: char): string {
    seq(|s|, i requires 0 <= i < |s| => if s[i] == from then to else s[i])
  }

  function PathPart(part: string): string {
    TrimSpace(TrimSuffix(part, ".git"))
  }

  function NonEmptyParts(raw: seq<string>): seq<string> {
    if raw == [] then []
    else
      var n := |raw| - 1;
      NonEmptyParts(raw[..n]) + (if PathPart(raw[n]) == "" then [] else [PathPart(raw[n])])
  }

  function PathParts(p: string): seq<string> {
    NonEmptyParts(Split(TrimSet(p, {'/'}), '/'))
  }

  lemma NonEmptyStep(raw: seq<string>, i: nat)
    requires i < |raw|
    ensures NonEmptyParts(raw[..i + 1])
         == NonEmptyParts(raw[..i]) + (if PathPart(raw[i]) == "" then [] else [PathPart(raw[i])])
  {
    assert raw[..i + 1][..i] == raw[..i];
  }

  method CollectPathParts(p: string) returns (out: seq<string>)
    ensures out == PathParts(p)
  {
    var raw := Split(TrimSet(p, {'/'}), '/');
    out := [];
    for i := 0 to |raw|
      invariant out == NonEmptyParts(raw[..i])
    {
      var part := PathPart(raw[i]);
      NonEmptyStep(raw, i);
      if part != "" { out := out + [part]; }
    }
    assert raw[..|raw|] == raw;
  }

  function PathPartsSlug(parts: seq<string>, fallback: string, lower: string -> string): (r: string)
    ensures Safe(r)
  {
    var n := |parts|;
    if n >= 2 then SafePathComponent(parts[n - 2] + "-" + parts[n - 1], lower)
    else if n == 1 then SafePathComponent(parts[0], lower)
    else SafePathComponent(fallback, lower)
  }

  datatype Url = Url(host: string, path: string)

  /** The text functions outside this repository. */
  datatype Library = Library(lower: string -> string, parseUrl: string -> Option<Url>)

  function PathSlugFromRepoUrl(repo: string, lib: Library): (r: string)
    ensures Safe(r)
  {
    var raw := TrimSuffix(TrimSetRight(TrimSpace(repo), {'/'}), ".git");
    if raw == "" then "source"
    else
      var parsed := lib.parseUrl(raw);
      if parsed.Some? && parsed.value.host != "" then
        PathPartsSlug(PathParts(parsed.value.path), parsed.value.host, lib.lower)
      else
        PathPartsSlug(PathParts(ReplaceChar(TrimPrefix(raw, "git@"), ':', '/')), raw, lib.lower)
  }

  /** Owner and repository names as they occur in a repository address. */
  predicate RepoName(s: string) {
    && s != "" && Trimmed(s) && NoChar(s, '/') && NoChar(s, ':')
    && !(|s| >= 4 && s[|s| - 4..] == ".git")
  }

  lemma PartUnchanged(s: string)
    requires RepoName(s)
    ensures PathPart(s) == s
  {
    TrimSpaceFixed(s);
  }

  /** The parts of `owner/name`, with or without the suffix, between any slashes. */
  lemma OwnerAndName(owner: string, name: string)
    requires RepoName(owner) && RepoName(name)
    ensures PathParts("/" + owner + "/" + name) == [owner, name]
  {
    var p := "/" + owner + "/" + name;
    var inner := owner + "/" + name;
    assert p[0] == '/' && p[1..] == inner && inner[0] == owner[0] && inner[|inner| - 1] == name[|name| - 1];
    assert TrimSetLeft(p, {'/'}) == inner;
    assert TrimSet(p, {'/'}) == inner;
    assert inner == owner + ['/'] + name;
    SplitCons(owner, '/', name);
    SplitNone(name, '/');
    PartUnchanged(owner);
    PartUnchanged(name);
    CollectTwo(owner, name);
  }

  lemma CollectTwo(a: string, b: string)
    requires PathPart(a) != "" && PathPart(b) != ""
    ensures NonEmptyParts([a, b]) == [PathPart(a), PathPart(b)]
    ensures NonEmptyParts([a]) == [PathPart(a)]
  {
    assert [a, b][..1] == [a] && [a][..0] == [];
    assert NonEmptyParts([a]) == [] + [PathPart(a)];
    assert NonEmptyParts([a, b]) == NonEmptyParts([a]) + [PathPart(b)];
  }

  /** Main result: the URL of a repository, however it ends, gives the checkout directory of its owner
      and name; and so, below, does its scp-like address. */
  lemma SpellingsAgree(url: string, owner: string, name: string, host: string, suffix: string, lib: Library)
    requires RepoName(owner) && RepoName(name) && host != "" && suffix in {"", ".git", "/", ".git/", "//"}
    requires Trimmed(url) && url != "" && url[|url| - 1] != '/' && TrimSuffix(url, ".git") == url
    requires lib.parseUrl(url) == Some(Url(host, "/" + owner + "/" + name))
    ensures PathSlugFromRepoUrl(url + suffix, lib) == SafePathComponent(owner + "-" + name, lib.lower)
  {
    var text := url + suffix;
    assert text[0] == url[0] && Trimmed(text);
    TrimSpaceFixed(text);
    SuffixTrimmed(url, suffix);
    OwnerAndName(owner, name);
  }

  lemma SuffixTrimmed(url: string, suffix: string)
    requires url != "" && url[|url| - 1] != '/' && TrimSuffix(url, ".git") == url
    requires suffix in {"", ".git", "/", ".git/", "//"}
    ensures TrimSuffix(TrimSetRight(url + suffix, {'/'}), ".git") == url
  {
    assert url + "" == url;
    var bare, slashes := WithSlashes(url, suffix);
    TrimSlashes(bare, slashes);
    SuffixTaken(url);
  }

  lemma WithSlashes(url: string, suffix: string) returns (bare: string, slashes: nat)
    requires suffix in {"", ".git", "/", ".git/", "//"}
    ensures url + suffix == bare + Slashes(slashes) && (bare == url || bare == url + ".git")
  {
    assert Slashes(0) == "" && Slashes(1) == "/" && Slashes(2) == "//";
    bare := if suffix == ".git" || suffix == ".git/" then url + ".git" else url;
    slashes := if suffix == "//" then 2 else if suffix == "/" || suffix == ".git/" then 1 else 0;
    assert suffix == ".git/" ==> suffix == ".git" + "/" && url + suffix == (url + ".git") + "/";
    assert bare + "" == bare && url + "" == url;
  }

  lemma SuffixTaken(url: string)
    ensures TrimSuffix(url + ".git", ".git") == url
  {
    assert (url + ".git")[|url|..] == ".git" && (url + ".git")[..|url|] == url;
  }

  function Slashes(n: nat): string {
    if n == 0 then "" else Slashes(n - 1) + "/"
  }

  lemma {:induction false} TrimSlashes(s: string, n: nat)
    requires s != "" ==> s[|s| - 1] != '/'
    ensures TrimSetRight(s + Slashes(n), {'/'}) == s
  {
    if n == 0 {
      assert s + "" == s;
    } else {
      OneMoreSlash(s, n);
      TrimOneSlash(s + Slashes(n - 1));
      TrimSlashes(s, n - 1);
    }
  }

  lemma OneMoreSlash(s: string, n: nat)
    requires n > 0
    ensures s + Slashes(n) == (s + Slashes(n - 1)) + "/"
  {
  }

  lemma TrimOneSlash(s: string)
    ensures TrimSetRight(s + "/", {'/'}) == TrimSetRight(s, {'/'})
  {
    assert (s + "/")[..|s + "/"| - 1] == s;
  }

  lemma ScpSpelling(host: string, owner: string, name: string, lib: Library)
    requires RepoName(owner) && RepoName(name)
    requires host != "" && NoChar(host, '/') && NoChar(host, ':') && PathPart(host) != ""
    requires var raw := "git@" + host + ":" + owner + "/" + name;
             lib.parseUrl(raw).None? && Trimmed(raw)
    ensures PathSlugFromRepoUrl("git@" + host + ":" + owner + "/" + name, lib)
         == SafePathComponent(owner + "-" + name, lib.lower)
  {
    var raw := "git@" + host + ":" + owner + "/" + name;
    TrimSpaceFixed(raw);
    assert raw[|raw| - 1] == name[|name| - 1];
    assert TrimSetRight(raw, {'/'}) == raw;
    NoSuffix(raw, owner, name, host);
    ScpPath(host, owner, name);
    ScpParts(host, owner, name);
  }

  lemma ScpPath(host: string, owner: string, name: string)
    requires NoChar(host, ':') && NoChar(owner, ':') && NoChar(name, ':')
    ensures ReplaceChar(TrimPrefix("git@" + host + ":" + owner + "/" + name, "git@"), ':', '/')
         == host + "/" + owner + "/" + name
  {
    var rest := host + ":" + owner + "/" + name;
    assert "git@" + host + ":" + owner + "/" + name == "git@" + rest;
    assert ("git@" + rest)[|"git@"|..] == rest;
    var replaced, path := ReplaceChar(rest, ':', '/'), host + "/" + owner + "/" + name;
    assert |replaced| == |path|;
    forall i | 0 <= i < |path| ensures replaced[i] == path[i] {
      if i < |host| {
        assert rest[i] == host[i];
      } else if |host| < i <= |host| + |owner| {
        assert rest[i] == owner[i - |host| - 1];
      } else if i > |host| + |owner| + 1 {
        assert rest[i] == name[i - |host| - |owner| - 2];
      }
    }
  }

  lemma ScpParts(host: string, owner: string, name: string)
    requires RepoName(owner) && RepoName(name)
    requires host != "" && NoChar(host, '/') && PathPart(host) != ""
    ensures PathParts(host + "/" + owner + "/" + name) == [PathPart(host), owner, name]
  {
    var path := host + "/" + owner + "/" + name;
    assert path[0] == host[0] && path[|path| - 1] == name[|name| - 1];
    assert host[0] in host && name[|name| - 1] in name;
    TrimSetFixed(path, {'/'});
    SplitThree(host, owner, name);
    PartUnchanged(owner);
    PartUnchanged(name);
    CollectThree(host, owner, name);
  }

  lemma SplitThree(a: string, b: string, c: string)
    requires NoChar(a, '/') && NoChar(b, '/') && NoChar(c, '/')
    ensures Split(a + "/" + b + "/" + c, '/') == [a, b, c]
  {
    assert a + "/" + b + "/" + c == a + ['/'] + (b + ['/'] + c);
    SplitCons(a, '/', b + ['/'] + c);
    SplitCons(b, '/', c);
    SplitNone(c, '/');
    assert [a] + ([b] + [c]) == [a, b, c];
  }

  lemma CollectThree(a: string, b: string, c: string)
    requires PathPart(a) != "" && PathPart(b) != "" && PathPart(c) != ""
    ensures NonEmptyParts([a, b, c]) == [PathPart(a), PathPart(b), PathPart(c)]
  {
    CollectTwo(a, b);
    assert [a, b, c][..2] == [a, b];
    assert NonEmptyParts([a, b, c]) == NonEmptyParts([a, b]) + [PathPart(c)];
  }

  lemma NoSuffix(raw: string, owner: string, name: string, host: string)
    requires RepoName(name) && raw == "git@" + host + ":" + owner + "/" + name
    ensures TrimSuffix(raw, ".git") == raw
  {
    if |name| >= 4 {
      assert raw[|raw| - 4..] == name[|name| - 4..];
    } else {
      assert raw[|raw| - |name| - 1] == '/' && raw[|raw| - 4..][3 - |name|] == '/';
    }
  }

  const PLAYGROUNDS_PATH := "/opt/fibe/playgrounds"

  function PlaygroundPath(project: string): string {
    PLAYGROUNDS_PATH + "/" + TrimSpace(project)
  }

  function CheckoutText(p: string, slug: string, leaf: string): string {
    PLAYGROUNDS_PATH + "/" + p + "/props/" + slug + "/" + leaf
  }

  function SourceCheckoutPath(project: string, repo: string, branch: string, lib: Library): string {
    CheckoutText(TrimSpace(project), PathSlugFromRepoUrl(repo, lib),
                 SafePathComponent(if branch == "" then "main" else branch, lib.lower))
  }

  /** `ValidRemoteCheckoutPath`. */
  predicate ValidCheckoutPath(raw0: string, base: string) {
    var raw := TrimSpace(raw0);
    && raw != "" && '\0' !in raw && IsAbs(raw)
    && !HasParentSegment(raw)
    && var clean, root := Clean(raw), TrimSetRight(base, {'/'}) + "/props/";
       root <= clean && clean != TrimSuffix(root, "/")
  }

  /** `NewRemoteCheckoutPath`: the validated, cleaned path. */
  function NewRemoteCheckoutPath(project: string, raw: string): Option<string> {
    if !ValidProject(project) then None
    else if !ValidCheckoutPath(TrimSpace(raw), PlaygroundPath(project)) then None
    else Some(Clean(TrimSpace(raw)))
  }

  function CheckoutSegments(project: string, slug: string, branch: string): seq<string> {
    ["opt", "fibe", "playgrounds", project, "props", slug, branch]
  }

  lemma JoinThree(a: string, b: string, c: string)
    ensures Join([a, b, c], "/") == a + "/" + b + "/" + c
  {
    assert [a, b, c][1..] == [b, c] && [b, c][1..] == [c];
    assert Join([c], "/") == c;
    assert Join([b, c], "/") == b + "/" + c;
    assert a + "/" + (b + "/" + c) == a + "/" + b + "/" + c;
  }

  lemma CheckoutTextSegments(p: string, slug: string, leaf: string)
    ensures CheckoutText(p, slug, leaf) == Abs(CheckoutSegments(p, slug, leaf))
  {
    var top, rest := ["opt", "fibe", "playgrounds"], ["props", slug, leaf];
    JoinThree("opt", "fibe", "playgrounds");
    JoinThree("props", slug, leaf);
    JoinAppend(top, [p] + rest, "/");
    JoinAppend([p], rest, "/");
    assert Join([p], "/") == p;
    assert CheckoutSegments(p, slug, leaf) == top + ([p] + rest);
    JoinedText(p, slug, leaf, Join(top, "/"), Join(rest, "/"));
  }

  lemma Regroup(a: string, b: string, c: string, d: string, e: string)
    ensures a + (b + a + (c + a + d)) == (a + b) + a + c + (a + d)
    ensures a + (d + e) == (a + d) + e
  {
  }

  lemma JoinedText(p: string, slug: string, leaf: string, top: string, rest: string)
    requires top == "opt" + "/" + "fibe" + "/" + "playgrounds" && rest == "props" + "/" + slug + "/" + leaf
    ensures "/" + (top + "/" + (p + "/" + rest)) == CheckoutText(p, slug, leaf)
  {
    assert "/" + top == PLAYGROUNDS_PATH;
    Regroup("/", top, p, rest, "");
    assert "/" + rest == "/props/" + slug + "/" + leaf;
  }

  predicate ProjectText(p: string) {
    p != "" && forall c :: c in p ==> ProjectChar(c)
  }

  lemma PlainProject(p: string)
    requires ProjectText(p)
    ensures Safe(p)
  {
    assert p[0] in p && p[|p| - 1] in p;
  }

  lemma CheckoutTextEnds(p: string, slug: string, leaf: string)
    requires Safe(p) && Safe(slug) && Safe(leaf)
    ensures var path := CheckoutText(p, slug, leaf);
            && TrimSpace(path) == path && IsAbs(path) && '\0' !in path
            && path == PLAYGROUNDS_PATH + "/" + p + "/props/" + (slug + "/" + leaf)
  {
    var path := CheckoutText(p, slug, leaf);
    assert path[|path| - 1] == leaf[|leaf| - 1] && path[0] == '/';
    TrimSpaceFixed(path);
  }

  lemma BaseUntouched(p: string)
    requires Safe(p)
    ensures TrimSetRight(PLAYGROUNDS_PATH + "/" + p, {'/'}) == PLAYGROUNDS_PATH + "/" + p
  {
    var base := PLAYGROUNDS_PATH + "/" + p;
    assert base[|base| - 1] == p[|p| - 1];
    assert p[|p| - 1] in p;
  }

  lemma CheckoutTextIsClean(p: string, slug: string, leaf: string)
    requires Safe(p) && Safe(slug) && Safe(leaf)
    ensures Clean(CheckoutText(p, slug, leaf)) == CheckoutText(p, slug, leaf)
    ensures !HasParentSegment(CheckoutText(p, slug, leaf))
  {
    CheckoutTextSegments(p, slug, leaf);
    CleanAbs(CheckoutSegments(p, slug, leaf));
  }

  /** The validator accepts a trimmed, clean text that goes on after its root. */
  lemma CleanIsValid(path: string, base: string, below: string)
    requires TrimSpace(path) == path && Clean(path) == path && IsAbs(path) && '\0' !in path && !HasParentSegment(path)
    requires TrimSetRight(base, {'/'}) == base && path == base + "/props/" + below && below != ""
    ensures ValidCheckoutPath(path, base)
  {
    var root := base + "/props/";
    assert |TrimSuffix(root, "/")| <= |root| < |path|;
  }

  /** A checkout text is absolute, trimmed, free of NUL and clean, and lies under its props directory. */
  lemma CheckoutTextIsValid(p: string, slug: string, leaf: string)
    requires ProjectText(p) && Safe(slug) && Safe(leaf)
    ensures var path := CheckoutText(p, slug, leaf);
            && TrimSpace(path) == path && Clean(path) == path
            && ValidCheckoutPath(path, PLAYGROUNDS_PATH + "/" + p)
  {
    PlainProject(p);
    CheckoutTextEnds(p, slug, leaf);
    BaseUntouched(p);
    CheckoutTextIsClean(p, slug, leaf);
    CleanIsValid(CheckoutText(p, slug, leaf), PLAYGROUNDS_PATH + "/" + p, slug + "/" + leaf);
  }

  /** Main result: for every valid project, repository text and branch text, the checkout
      path passes its validator and is returned unchanged. */
  lemma CheckoutPathIsValid(project: string, repo: string, branch: string, lib: Library)
    requires ValidProject(project)
    ensures NewRemoteCheckoutPath(project, SourceCheckoutPath(project, repo, branch, lib))
         == Some(SourceCheckoutPath(project, repo, branch, lib))
  {
    CheckoutTextIsValid(TrimSpace(project), PathSlugFromRepoUrl(repo, lib),
                        SafePathComponent(if branch == "" then "main" else branch, lib.lower));
  }

  lemma RootOf(base: string, clean: string)
    requires base + "/props/" <= clean
    ensures |base + "/props"| < |clean| && clean == base + "/props" + ['/'] + clean[|base + "/props"| + 1..]
  {
    var root := base + "/props/";
    assert root == base + "/props" + ['/'];
    assert clean == root + clean[|root|..];
  }

  /** What comes after a slash of a path written with plain segments is plain segments. */
  lemma BelowIsPlain(stack: seq<string>, head: string, rest: string)
    requires stack != [] && AllPlain(stack) && Abs(stack) == head + ['/'] + rest
    ensures AllPlain(Split(rest, '/'))
  {
    SplitAbs(stack);
    SplitAppend(head, '/', rest);
    var hs, below := Split(head, '/'), Split(rest, '/');
    assert hs + below == [""] + stack;
    forall i | 0 <= i < |below| ensures Plain(below[i]) {
      assert below[i] == (hs + below)[|hs| + i] == stack[|hs| + i - 1];
    }
  }

  /** Every accepted path, cleaned, is strictly below `<base>/props`: it is that root, a slash, and one or more
      ordinary segments. */
  lemma AcceptedIsBelowProps(raw: string, base: string) returns (below: seq<string>)
    requires ValidCheckoutPath(raw, base)
    ensures below != [] && AllPlain(below)
    ensures Clean(TrimSpace(raw)) == TrimSetRight(base, {'/'}) + "/props/" + Join(below, "/")
  {
    var text := TrimSpace(raw);
    var stack := PushAll(true, [], Split(text, '/'));
    PushWithoutParents(true, [], Split(text, '/'));
    var clean := Abs(stack);
    assert Clean(text) == clean;
    var head := TrimSetRight(base, {'/'}) + "/props";
    var rest := clean[|head| + 1..];
    RootOf(TrimSetRight(base, {'/'}), clean);
    assert |clean| > 1;
    assert stack != [];
    BelowIsPlain(stack, head, rest);
    below := Split(rest, '/');
    JoinSplit(rest, '/');
    assert ['/'] == "/";
  }

  lemma JoinConsFirst(c: char, parts: seq<string>, sep: string)
    requires parts != []
    ensures Join([[c] + parts[0]] + parts[1..], sep) == [c] + Join(parts, sep)
  {
    var longer := [[c] + parts[0]] + parts[1..];
    assert longer[1..] == parts[1..];
    if |parts| > 1 {
      assert ([c] + parts[0]) + sep + Join(parts[1..], sep) == [c] + (parts[0] + sep + Join(parts[1..], sep));
    }
  }

  lemma JoinEmptyFirst(parts: seq<string>, sep: string)
    requires parts != []
    ensures Join([""] + parts, sep) == sep + Join(parts, sep)
  {
    assert ([""] + parts)[1..] == parts;
    assert "" + sep + Join(parts, sep) == sep + Join(parts, sep);
  }

  lemma {:induction false} JoinSplit(s: string, sep: char)
    ensures Join(Split(s, sep), [sep]) == s
    decreases |s|
  {
    if s != "" {
      var rest := Split(s[1..], sep);
      JoinSplit(s[1..], sep);
      assert s == [s[0]] + s[1..];
      if s[0] == sep {
        JoinEmptyFirst(rest, [sep]);
      } else {
        JoinConsFirst(s[0], rest, [sep]);
      }
    }
  }

  // ---------------------------------------------------------------- Dockerfile paths

  /** `fs.ValidPath` (for text, always valid UTF-8). */
  predicate FsValidPath(p: string) {
    p == "." || forall i :: 0 <= i < |Split(p, '/')| ==> Plain(Split(p, '/')[i])
  }

  predicate ValidRelativeBuildPath(raw0: string) {
    var raw := TrimSpace(raw0);
    && raw != "" && '\0' !in raw && raw[0] != '/'
    && !HasParentSegment(raw)
    && Clean(raw) != "." && FsValidPath(Clean(raw))
  }

  /** `NewRelativeDockerfilePath`: blank means `Dockerfile`. */
  function NewRelativeDockerfilePath(raw0: string): Option<string> {
    var raw := if TrimSpace(raw0) != "" then TrimSpace(raw0) else "Dockerfile";
    if ValidRelativeBuildPath(raw) then Some(Clean(raw)) else None
  }

  /** For a relative path with no parent segment, the cleaned form is either `.` or plain
      segments, so `fs.ValidPath` never rejects what the earlier tests let through. */
  lemma CleanRelativeIsPlain(raw: string)
    requires raw != "" && raw[0] != '/' && !HasParentSegment(raw)
    ensures FsValidPath(Clean(raw))
    ensures Clean(raw) != "." ==> AllPlain(Split(Clean(raw), '/'))
  {
    var stack := PushAll(false, [], Split(raw, '/'));
    PushWithoutParents(false, [], Split(raw, '/'));
    if stack == [] {
      assert Clean(raw) == ".";
    } else {
      forall p | p in stack ensures NoChar(p, '/') { }
      SplitJoin(stack, '/');
      assert ['/'] == "/";
      assert Plain(stack[0]) && Split("", '/') == [""];
      assert Join(stack, "/") != "";
      assert Clean(raw) == Join(stack, "/");
    }
  }

  /** An accepted Dockerfile path is a nonempty list of plain segments. */
  lemma DockerfileIsPlain(raw: string)
    requires NewRelativeDockerfilePath(raw).Some?
    ensures var file := NewRelativeDockerfilePath(raw).value;
            file != "" && AllPlain(Split(file, '/'))
  {
    var text := if TrimSpace(raw) != "" then TrimSpace(raw) else "Dockerfile";
    assert ValidRelativeBuildPath(text);
    assert Trimmed(text);
    TrimSpaceFixed(text);
    CleanRelativeIsPlain(text);
    var file := Clean(text);
    assert Plain(Split(file, '/')[0]) && Split("", '/') == [""];
  }

  lemma AbsAppend(a: seq<string>, b: seq<string>)
    requires a != [] && b != []
    ensures Abs(a + b) == Abs(a) + "/" + Join(b, "/")
  {
    JoinAppend(a, b, "/");
    assert "/" + (Join(a, "/") + "/" + Join(b, "/")) == ("/" + Join(a, "/")) + "/" + Join(b, "/");
  }

  lemma BelowContext(context: seq<string>, file: string)
    requires context != [] && AllPlain(context) && AllPlain(Split(file, '/'))
    ensures Clean(Abs(context) + "/" + file) == Abs(context) + "/" + file == Abs(context + Split(file, '/'))
  {
    var segs := Split(file, '/');
    assert Join(segs, "/") == file by {
      assert ['/'] == "/";
      JoinSplit(file, '/');
    }
    AbsAppend(context, segs);
    CleanAbs(context + segs);
  }

  /** Main result: an accepted Dockerfile path joined to any clean context stays strictly
      below it: cleaning the joined path changes nothing. */
  lemma DockerfileStaysInContext(context: seq<string>, raw: string)
    requires context != [] && AllPlain(context)
    requires NewRelativeDockerfilePath(raw).Some?
    ensures var file := NewRelativeDockerfilePath(raw).value;
            && file != ""
            && Clean(Abs(context) + "/" + file) == Abs(context) + "/" + file
            && Clean(Abs(context) + "/" + file) == Abs(context + Split(file, '/'))
  {
    DockerfileIsPlain(raw);
    BelowContext(context, NewRelativeDockerfilePath(raw).value);
  }
}
