/**
 * The blocklist engine: the line-oriented list parser, the domain-syntax
 * validator, and the registry of named lists plus the user's custom domains.
 */
module Blocklist {
  import opened Wrappers
  import opened Text

  // ---------------------------------------------------------------------
  // Domain syntax
  // ---------------------------------------------------------------------

  predicate IsAlphaNum(c: char) {
    'a' <= c <= 'z' || 'A' <= c <= 'Z' || '0' <= c <= '9'
  }

  predicate IsLabelChar(c: char) {
    IsAlphaNum(c) || c == '-'
  }

  /** One label of the pattern `[a-zA-Z0-9]([a-zA-Z0-9-]{0,61}[a-zA-Z0-9])?`. */
  predicate IsValidLabel(part: string) {
    && 1 <= |part| <= 63
    && IsAlphaNum(part[0])
    && IsAlphaNum(part[|part| - 1])
    && forall c <- part :: IsLabelChar(c)
  }

  const MaxDomainLength := 253

  /**
   * `isValidDomain`: one or more labels separated by single dots (the
   * anchored pattern `label(\.label)*`), at most 253 characters long.
   */
  predicate IsValidDomain(domain: string) {
    && (forall part <- Split(domain, '.') :: IsValidLabel(part))
    && |domain| <= MaxDomainLength
  }

  /** The character-level facts that hold of a dot-joined list of labels. */
  predicate WellDotted(d: string) {
    && |d| > 0
    && d[0] != '.'
    && d[|d| - 1] != '.'
    && (forall i :: 0 <= i < |d| - 1 && d[i] == '.' ==> d[i + 1] != '.')
    && (forall c <- d :: IsLabelChar(c) || c == '.')
  }

  lemma {:induction false} JoinedLabelsWellDotted(labels: seq<string>)
    requires labels != []
    requires forall part <- labels :: IsValidLabel(part)
    ensures WellDotted(Join(labels, '.'))
    decreases |labels|
  {
    var p := labels[0];
    assert p in labels;
    forall i | 0 <= i < |p| ensures p[i] != '.' && (IsLabelChar(p[i]) || p[i] == '.') {
      assert p[i] in p;
    }
    if |labels| == 1 {
      assert Join(labels, '.') == p;
    } else {
      var rest := Join(labels[1..], '.');
      JoinedLabelsWellDotted(labels[1..]);
      var d := p + ['.'] + rest;
      assert Join(labels, '.') == d;
      forall i | 0 <= i < |d| - 1 && d[i] == '.'
        ensures d[i + 1] != '.'
      {
        if i > |p| {
          assert d[i] == rest[i - |p| - 1] && d[i + 1] == rest[i - |p|];
        }
      }
      forall j | 0 <= j < |d|
        ensures IsLabelChar(d[j]) || d[j] == '.'
      {
        if j > |p| {
          assert d[j] == rest[j - |p| - 1] && rest[j - |p| - 1] in rest;
        }
      }
    }
  }

  /**
   * What acceptance by `isValidDomain` guarantees: a non-empty name of at
   * most 253 characters drawn from letters, digits, '-' and '.', with no
   * leading, trailing or doubled dot, whose every label is 1 to 63
   * characters long and starts and ends with a letter or digit.
   */
  lemma {:induction false} ValidDomainShape(d: string)
    requires IsValidDomain(d)
    ensures 0 < |d| <= 253
    ensures d[0] != '.' && d[|d| - 1] != '.'
    ensures forall i :: 0 <= i < |d| - 1 && d[i] == '.' ==> d[i + 1] != '.'
    ensures forall c <- d :: IsLabelChar(c) || c == '.'
    ensures forall part <- Split(d, '.') ::
              1 <= |part| <= 63 && IsAlphaNum(part[0]) && IsAlphaNum(part[|part| - 1])
  {
    JoinSplit(d, '.');
    JoinedLabelsWellDotted(Split(d, '.'));
  }

  lemma {:induction false} LowerLabel(part: string)
    ensures IsValidLabel(Lower(part)) <==> IsValidLabel(part)
  {
    if IsValidLabel(part) {
      forall c <- Lower(part) ensures IsLabelChar(c) {
        var i :| 0 <= i < |part| && Lower(part)[i] == c;
        assert part[i] in part;
      }
    }
    if IsValidLabel(Lower(part)) {
      forall c <- part ensures IsLabelChar(c) {
        var i :| 0 <= i < |part| && part[i] == c;
        assert Lower(part)[i] in Lower(part);
      }
    }
  }

  /** Validity does not depend on letter case. */
  lemma {:induction false} ValidDomainIgnoresCase(d: string)
    ensures IsValidDomain(Lower(d)) <==> IsValidDomain(d)
  {
    SplitLower(d, '.');
    var parts := Split(d, '.');
    forall i | 0 <= i < |parts| {
      LowerLabel(parts[i]);
    }
    if IsValidDomain(d) {
      forall part <- Split(Lower(d), '.') ensures IsValidLabel(part) {
        var i :| 0 <= i < |parts| && LowerEach(parts)[i] == part;
        assert parts[i] in parts;
      }
    }
    if IsValidDomain(Lower(d)) {
      forall part <- parts ensures IsValidLabel(part) {
        var i :| 0 <= i < |parts| && parts[i] == part;
        assert LowerEach(parts)[i] in Split(Lower(d), '.');
      }
    }
  }

  // ---------------------------------------------------------------------
  // The list parser
  // ---------------------------------------------------------------------

  /** A trimmed line in network-filter anchor syntax `||name^`. */
  predicate IsAdBlockRule(cleaned: string) {
    StartsWith(cleaned, "||") && EndsWith(cleaned, "^")
  }

  predicate IsSkipped(cleaned: string) {
    cleaned == [] || cleaned[0] == '#' || cleaned[0] == '!'
  }

  /**
   * What one line of list text contributes to `parseBlocklist`: nothing for
   * a blank or comment line; the text between `||` and `^` for an AdBlock
   * rule, unvalidated; for a line holding a space, its second
   * whitespace-separated token if that is a valid domain; otherwise the
   * whole trimmed line if it is a valid domain. What is kept is lowercased.
   */
  function LineDomain(line: string): Option<string> {
    var cleaned := Trim(line);
    if IsSkipped(cleaned) then None
    else if IsAdBlockRule(cleaned) then
      var inner := cleaned[2..|cleaned| - 1];
      if inner == [] then None else Some(Lower(inner))
    else if ' ' in cleaned then
      var parts := SplitWhitespace(cleaned);
      if |parts| >= 2 && IsValidDomain(parts[1]) then Some(Lower(parts[1])) else None
    else if IsValidDomain(cleaned) then Some(Lower(cleaned))
    else None
  }

  function LineSet(line: string): set<string> {
    match LineDomain(line)
    case Some(d) => {d}
    case None => {}
  }

  /** The union of what each line contributes, under a given reading of one line. */
  function Gather(lines: seq<string>, contribute: string -> set<string>): set<string>
    decreases |lines|
  {
    if lines == [] then {}
    else Gather(lines[..|lines| - 1], contribute) + contribute(lines[|lines| - 1])
  }

  /** The domain set `parseBlocklist(text)` returns. */
  function Parsed(text: string): set<string> {
    Gather(Split(text, '\n'), LineSet)
  }

  /** Every kept domain is non-empty and lowercase, and comes from a line that is neither blank nor a comment. */
  lemma {:induction false} LineDomainShape(line: string)
    ensures IsSkipped(Trim(line)) ==> LineDomain(line) == None
    ensures LineDomain(line).Some? ==>
              && LineDomain(line).value != []
              && IsLowerCase(LineDomain(line).value)
              && Trim(line) != []
              && Trim(line)[0] != '#' && Trim(line)[0] != '!'
  {
    var cleaned := Trim(line);
    if !IsSkipped(cleaned) && !IsAdBlockRule(cleaned) {
      if ' ' in cleaned {
        var parts := SplitWhitespace(cleaned);
        if |parts| >= 2 && IsValidDomain(parts[1]) {
          ValidDomainShape(parts[1]);
        }
      } else if IsValidDomain(cleaned) {
        ValidDomainShape(cleaned);
      }
    }
  }

  /** Each further line adds what it contributes. */
  lemma {:induction false} GatherStep(lines: seq<string>, contribute: string -> set<string>, i: nat)
    requires i < |lines|
    ensures Gather(lines[..i + 1], contribute) == Gather(lines[..i], contribute) + contribute(lines[i])
  {
    assert lines[..i + 1][..i] == lines[..i];
  }

  /** One step of the parser's loop: a line adds its domain, if it yields one. */
  lemma {:induction false} ParseStep(lines: seq<string>, i: nat, domains: set<string>, domain: Option<string>)
    requires i < |lines| && domains == Gather(lines[..i], LineSet) && domain == LineDomain(lines[i])
    ensures Gather(lines[..i + 1], LineSet) == if domain.Some? then domains + {domain.value} else domains
  {
    GatherStep(lines, LineSet, i);
  }

  lemma {:induction false} GatherSingle(line: string, contribute: string -> set<string>)
    ensures Gather([line], contribute) == contribute(line)
  {
    assert [line][..0] == [];
  }

  /** A name is gathered exactly when some line contributes it. */
  lemma {:induction false} GatherMembers(lines: seq<string>, contribute: string -> set<string>, d: string)
    ensures d in Gather(lines, contribute) <==> exists i :: 0 <= i < |lines| && d in contribute(lines[i])
    decreases |lines|
  {
    if lines != [] {
      var n := |lines| - 1;
      var init := lines[..n];
      GatherMembers(init, contribute, d);
      assert forall i :: 0 <= i < n ==> init[i] == lines[i];
    }
  }

  /**
   * The shape of `parseBlocklist`'s output: every member is non-empty and
   * lowercase and is what some non-blank, non-comment line of the text
   * contributes; blank and comment lines contribute nothing.
   */
  lemma {:induction false} ParsedShape(text: string, d: string)
    requires d in Parsed(text)
    ensures d != [] && IsLowerCase(d)
    ensures exists i :: 0 <= i < |Split(text, '\n')| &&
              !IsSkipped(Trim(Split(text, '\n')[i])) && LineDomain(Split(text, '\n')[i]) == Some(d)
  {
    var lines := Split(text, '\n');
    GatherMembers(lines, LineSet, d);
    var i :| 0 <= i < |lines| && d in LineSet(lines[i]);
    var line := lines[i];
    LineSetMembers(line, d);
    LineDomainShape(line);
    assert !IsSkipped(Trim(line)) && LineDomain(line) == Some(d);
  }

  lemma {:induction false} LineSetMembers(line: string, d: string)
    ensures d in LineSet(line) <==> LineDomain(line) == Some(d)
  {
  }

  /**
   * An AdBlock rule `||name^` contributes exactly the lowercased name, with
   * no validation of it, and nothing when the name is empty.
   */
  lemma {:induction false} AdBlockRuleLine(name: string)
    ensures LineDomain("||" + name + "^") == if name == [] then None else Some(Lower(name))
  {
    var line := "||" + name + "^";
    TrimUnpadded(line);
    assert !IsSkipped(line);
    assert line[..2] == "||" && line[|line| - 1..] == "^";
    assert IsAdBlockRule(line);
    assert line[2..|line| - 1] == name;
  }

  lemma {:induction false} TrimUnpadded(s: string)
    requires s != [] && !IsWhitespace(s[0]) && !IsWhitespace(s[|s| - 1])
    ensures Trim(s) == s
  {
  }

  /**
   * A hosts-file line `address name`, with a single space between two
   * whitespace-free tokens, contributes the lowercased name when it is a
   * valid domain and nothing otherwise, whatever the address is.
   */
  lemma {:induction false} HostsLine(address: string, name: string)
    requires address != [] && name != [] && NoWhitespace(address) && NoWhitespace(name)
    requires address[0] != '#' && address[0] != '!'
    requires !(StartsWith(address, "||") && EndsWith(name, "^"))
    ensures LineDomain(address + " " + name) ==
              if IsValidDomain(name) then Some(Lower(name)) else None
  {
    var line := address + " " + name;
    TrimUnpadded(line);
    assert line[|address|] == ' ';
    assert StartsWith(line, "||") ==> StartsWith(address, "||") by {
      if |address| == 1 {
        assert line[1] == ' ';
      } else {
        assert line[..2] == address[..2];
      }
    }
    assert !IsAdBlockRule(line) by {
      if EndsWith(line, "^") {
        assert line[|line| - 1] == name[|name| - 1];
        assert name[|name| - 1..] == "^";
      }
    }
    assert Trim(line) == line && line[0] == address[0] && !IsSkipped(line);
    assert line[|address|] in line;
    SplitWhitespaceTwoWords(address, name);
    assert SplitWhitespace(line)[1] == name;
  }

  /**
   * The hosts branch needs a literal space: a tab-separated `address name`
   * line is taken as one candidate, which is never a valid domain.
   */
  lemma {:induction false} TabSeparatedHostsLine(address: string, name: string)
    requires address != [] && name != [] && NoWhitespace(address) && NoWhitespace(name)
    requires address[0] != '#' && address[0] != '!'
    requires !(StartsWith(address, "||") && EndsWith(name, "^"))
    ensures LineDomain(address + "\t" + name) == None
  {
    var line := address + "\t" + name;
    TrimUnpadded(line);
    assert StartsWith(line, "||") ==> StartsWith(address, "||") by {
      if |address| == 1 {
        assert line[1] == '\t';
      } else {
        assert line[..2] == address[..2];
      }
    }
    assert !IsAdBlockRule(line) by {
      if EndsWith(line, "^") {
        assert line[|line| - 1] == name[|name| - 1];
        assert name[|name| - 1..] == "^";
      }
    }
    assert ' ' !in line by {
      forall i | 0 <= i < |line| ensures line[i] != ' ' {
        if i < |address| {
          assert line[i] == address[i] && address[i] in address;
        } else if i > |address| {
          assert line[i] == name[i - |address| - 1] && name[i - |address| - 1] in name;
        }
      }
    }
    assert !NoWhitespace(line) by {
      assert line[|address|] == '\t' && line[|address|] in line;
    }
    ValidDomainHasNoWhitespace(line);
  }

  /** A valid domain contains no whitespace. */
  lemma {:induction false} ValidDomainHasNoWhitespace(d: string)
    ensures IsValidDomain(d) ==> NoWhitespace(d)
  {
    if IsValidDomain(d) {
      ValidDomainShape(d);
      forall i | 0 <= i < |d| ensures !IsWhitespace(d[i]) {
        assert d[i] in d;
      }
    }
  }

  /**
   * A bare name on a line of its own (no whitespace, not a comment, not an
   * AdBlock rule) contributes its lowercase form when it is a valid domain,
   * and nothing otherwise.
   */
  lemma {:induction false} PlainLine(name: string)
    requires name != [] && NoWhitespace(name) && name[0] != '#' && name[0] != '!'
    requires !IsAdBlockRule(name)
    ensures LineDomain(name) == if IsValidDomain(name) then Some(Lower(name)) else None
  {
    TrimUnpadded(name);
    assert ' ' !in name by {
      forall i | 0 <= i < |name| ensures name[i] != ' ' {
        assert !IsWhitespace(name[i]);
      }
    }
  }

  lemma {:induction false} GatherAppend(a: seq<string>, b: seq<string>, contribute: string -> set<string>)
    ensures Gather(a + b, contribute) == Gather(a, contribute) + Gather(b, contribute)
    decreases |b|
  {
    if b != [] {
      var b' := b[..|b| - 1];
      assert (a + b)[..|a + b| - 1] == a + b';
      GatherAppend(a, b', contribute);
    } else {
      assert a + b == a;
    }
  }

  /** Lines are parsed independently: the parse of two texts joined by a newline is the union of their parses. */
  lemma {:induction false} ParsedConcat(a: string, b: string)
    ensures Parsed(a + "\n" + b) == Parsed(a) + Parsed(b)
  {
    SplitAtSeparator(a, b, '\n');
    assert a + "\n" + b == a + ['\n'] + b;
    GatherAppend(Split(a, '\n'), Split(b, '\n'), LineSet);
  }

  /** Repeating a text collapses: duplicate lines add nothing. */
  lemma {:induction false} ParsedDuplicate(a: string)
    ensures Parsed(a + "\n" + a) == Parsed(a)
  {
    ParsedConcat(a, a);
  }

  /** A text without a newline is a single line. */
  lemma {:induction false} ParsedSingleLine(line: string)
    requires '\n' !in line
    ensures Parsed(line) == LineSet(line)
  {
    SplitWithoutSeparator(line, '\n');
    GatherSingle(line, LineSet);
  }

  // ---------------------------------------------------------------------
  // The registry
  // ---------------------------------------------------------------------

  /** The text a fetch delivered, or the failure of `fetch` / `response.text()`. */
  datatype FetchResult = Fetched(text: string) | FetchFailed

  /** A named list and where to fetch it from. */
  datatype Source = Source(name: string, locator: string)

  /** The lists `loadBlocklists` loads from the application bundle, in order. */
  const BundledLists: seq<Source> := [
    Source("youtube-ads", "assets/blocklists/youtube-ads.txt"),
    Source("general-ads", "assets/blocklists/general-ads.txt"),
    Source("custom", "assets/blocklists/custom.txt")
  ]

  /** The lists `updateBlocklists` downloads, in order. */
  const RemoteUpdates: seq<Source> := [
    Source("youtube-ads", "https://raw.githubusercontent.com/kboghdady/youTube_ads_4_pi-hole/master/black.list"),
    Source("general-ads", "https://someonewhocares.org/hosts/zero/hosts")
  ]

  /** The set `loadBlocklist` stores: the parse on success, empty on failure. */
  function LoadedSet(fetched: FetchResult): set<string> {
    match fetched
    case Fetched(text) => Parsed(text)
    case FetchFailed => {}
  }

  /**
   * The registry after a run of `updateBlocklists` over `updates`, each
   * downloaded text read into a set by `read` (the parser, `Parsed`): a
   * failed download keeps the previous entry.
   */
  function Updated(lists: map<string, set<string>>, updates: seq<Source>,
                   fetch: string -> FetchResult, read: string -> set<string>): map<string, set<string>>
    decreases |updates|
  {
    if updates == [] then lists
    else
      var before := Updated(lists, updates[..|updates| - 1], fetch, read);
      var u := updates[|updates| - 1];
      match fetch(u.locator)
      case Fetched(text) => before[u.name := read(text)]
      case FetchFailed => before
  }

  lemma {:induction false} UpdatedStep(lists: map<string, set<string>>, updates: seq<Source>,
                    fetch: string -> FetchResult, read: string -> set<string>, i: nat)
    requires i < |updates|
    ensures Updated(lists, updates[..i + 1], fetch, read) ==
              match fetch(updates[i].locator)
              case Fetched(text) => Updated(lists, updates[..i], fetch, read)[updates[i].name := read(text)]
              case FetchFailed => Updated(lists, updates[..i], fetch, read)
  {
    assert updates[..i + 1][..i] == updates[..i];
  }

  /** An update run leaves every list it does not name as it was. */
  lemma {:induction false} UpdatedKeepsOthers(lists: map<string, set<string>>, updates: seq<Source>,
                                              fetch: string -> FetchResult, read: string -> set<string>,
                                              name: string)
    requires forall u <- updates :: u.name != name
    ensures name in Updated(lists, updates, fetch, read) <==> name in lists
    ensures name in lists ==> Updated(lists, updates, fetch, read)[name] == lists[name]
    decreases |updates|
  {
    if updates != [] {
      UpdatedKeepsOthers(lists, updates[..|updates| - 1], fetch, read, name);
      assert updates[|updates| - 1] in updates;
    }
  }

  /** A list whose every download fails keeps its previous set. */
  lemma {:induction false} UpdatedKeepsOnFailure(lists: map<string, set<string>>, updates: seq<Source>,
                                                 fetch: string -> FetchResult, read: string -> set<string>,
                                                 name: string)
    requires forall u <- updates :: u.name == name ==> fetch(u.locator) == FetchFailed
    ensures name in Updated(lists, updates, fetch, read) <==> name in lists
    ensures name in lists ==> Updated(lists, updates, fetch, read)[name] == lists[name]
    decreases |updates|
  {
    if updates != [] {
      UpdatedKeepsOnFailure(lists, updates[..|updates| - 1], fetch, read, name);
      assert updates[|updates| - 1] in updates;
    }
  }

  /** A list whose last download succeeds holds the reading of that download. */
  lemma {:induction false} UpdatedTakesLastSuccess(lists: map<string, set<string>>, updates: seq<Source>,
                                                   fetch: string -> FetchResult, read: string -> set<string>,
                                                   k: nat)
    requires k < |updates| && fetch(updates[k].locator).Fetched?
    requires forall j :: k < j < |updates| ==> updates[j].name != updates[k].name
    ensures updates[k].name in Updated(lists, updates, fetch, read)
    ensures Updated(lists, updates, fetch, read)[updates[k].name] == read(fetch(updates[k].locator).text)
    decreases |updates|
  {
    var init := updates[..|updates| - 1];
    var last := updates[|updates| - 1];
    if k < |updates| - 1 {
      assert init[k] == updates[k];
      forall j | k < j < |init| ensures init[j].name != init[k].name {
        assert init[j] == updates[j];
      }
      UpdatedTakesLastSuccess(lists, init, fetch, read, k);
      assert last.name != updates[k].name;
    }
  }

  /** The union of the sets of the lists named in `names`. */
  function UnionOf(lists: map<string, set<string>>, names: set<string>): set<string> {
    set name, d | name in names && name in lists && d in lists[name] :: d
  }

  lemma {:induction false} UnionOfAddName(lists: map<string, set<string>>, names: set<string>, name: string)
    requires name in lists
    ensures UnionOf(lists, names + {name}) == UnionOf(lists, names) + lists[name]
  {
    forall d | d in lists[name] ensures d in UnionOf(lists, names + {name}) {
      assert name in names + {name};
    }
  }

  /** The union of every list's set and the custom domains. */
  function Merged(lists: map<string, set<string>>, custom: set<string>): set<string> {
    UnionOf(lists, lists.Keys) + custom
  }

  /** Replacing one list's set: the union is the rest's union plus the new set. */
  lemma {:induction false} MergedAfterReplace(lists: map<string, set<string>>, custom: set<string>, name: string, s: set<string>)
    ensures Merged(lists[name := s], custom) == Merged(lists - {name}, custom) + s
  {
    var m := lists[name := s];
    forall d | d in Merged(m, custom)
      ensures d in Merged(lists - {name}, custom) + s
    {
      if d !in custom {
        var n :| n in m.Keys && n in m && d in m[n];
        if n != name {
          assert n in lists - {name} && d in (lists - {name})[n];
        }
      }
    }
    forall d | d in Merged(lists - {name}, custom) + s
      ensures d in Merged(m, custom)
    {
      if d in s {
        assert name in m && d in m[name];
      } else if d !in custom {
        var n :| n in (lists - {name}).Keys && n in lists - {name} && d in (lists - {name})[n];
        assert n in m.Keys && n in m && d in m[n];
      }
    }
  }

  predicate ListsNormalized(lists: map<string, set<string>>) {
    forall name <- lists :: forall d <- lists[name] :: d != [] && IsLowerCase(d)
  }

  predicate CustomNormalized(custom: set<string>) {
    forall d <- custom :: IsValidDomain(d) && IsLowerCase(d)
  }

  /** Storing a parse keeps every list entry non-empty and lowercase. */
  lemma {:induction false} StoreParsedNormalized(lists: map<string, set<string>>, name: string, text: string)
    ensures ListsNormalized(lists) ==> ListsNormalized(lists[name := Parsed(text)])
  {
    forall d <- Parsed(text) ensures d != [] && IsLowerCase(d) {
      ParsedShape(text, d);
    }
  }

  /** `Array.from` on a set: each member exactly once, in some order. */
  method ToSequence(s: set<string>) returns (xs: seq<string>)
    ensures forall i, j :: 0 <= i < j < |xs| ==> xs[i] != xs[j]
    ensures forall d :: d in xs <==> d in s
    ensures |xs| == |s|
  {
    xs := [];
    var rest := s;
    while rest != {}
      invariant rest <= s
      invariant forall d :: d in s <==> d in rest || d in xs
      invariant forall d <- xs :: d !in rest
      invariant forall i, j :: 0 <= i < j < |xs| ==> xs[i] != xs[j]
      invariant |xs| + |rest| == |s|
      decreases rest
    {
      var d :| d in rest;
      xs := xs + [d];
      rest := rest - {d};
    }
  }

  /**
   * The state of `BlocklistManager`: `blocklists` maps a list name to its
   * domain set, replaced wholesale by loads and updates; `customDomains` is
   * edited one domain at a time.
   */
  class BlocklistManager {
    var blocklists: map<string, set<string>>
    var customDomains: set<string>

    /** Every stored list entry is non-empty and lowercase, and every custom domain is a valid lowercase domain. */
    predicate Normalized()
      reads this
    {
      ListsNormalized(blocklists) && CustomNormalized(customDomains)
    }

    /** The merged block set `getAllBlockedDomains` lists. */
    function AllBlocked(): set<string>
      reads this
    {
      Merged(blocklists, customDomains)
    }

    constructor ()
      ensures blocklists == map[] && customDomains == {}
      ensures Normalized()
    {
      blocklists := map[];
      customDomains := {};
    }

    /** `parseBlocklist`: the union, over the newline-separated lines, of what each line contributes. */
    method ParseBlocklist(text: string) returns (domains: set<string>)
      ensures domains == Parsed(text)
    {
      domains := {};
      var lines := Split(text, '\n');
      var i := 0;
      while i < |lines|
        invariant 0 <= i <= |lines|
        invariant domains == Gather(lines[..i], LineSet)
      {
        var domain := LineDomain(lines[i]);
        ParseStep(lines, i, domains, domain);
        if domain.Some? {
          domains := domains + {domain.value};
        }
        i := i + 1;
      }
      assert lines[..i] == lines;
    }

    /** `loadBlocklist`: sets the entry `name` to the parse of the fetched text, or to the empty set when the fetch fails. */
    method LoadBlocklist(name: string, path: string, fetch: string -> FetchResult)
      modifies this
      ensures blocklists == old(blocklists)[name := LoadedSet(fetch(path))]
      ensures customDomains == old(customDomains)
      ensures old(Normalized()) ==> Normalized()
    {
      match fetch(path)
      case Fetched(text) =>
        var domains := ParseBlocklist(text);
        StoreParsedNormalized(blocklists, name, text);
        blocklists := blocklists[name := domains];
      case FetchFailed =>
        blocklists := blocklists[name := {}];
    }

    /** `loadBlocklists`: loads the three bundled lists in turn; one failing does not stop the others. */
    method LoadBlocklists(fetch: string -> FetchResult)
      modifies this
      ensures blocklists == old(blocklists)
                [BundledLists[0].name := LoadedSet(fetch(BundledLists[0].locator))]
                [BundledLists[1].name := LoadedSet(fetch(BundledLists[1].locator))]
                [BundledLists[2].name := LoadedSet(fetch(BundledLists[2].locator))]
      ensures customDomains == old(customDomains)
      ensures old(Normalized()) ==> Normalized()
    {
      LoadBlocklist(BundledLists[0].name, BundledLists[0].locator, fetch);
      LoadBlocklist(BundledLists[1].name, BundledLists[1].locator, fetch);
      LoadBlocklist(BundledLists[2].name, BundledLists[2].locator, fetch);
    }

    /**
     * `updateBlocklists`: downloads each remote list in turn and replaces
     * its entry with the parse; a failed download leaves the entry as it was.
     */
    method UpdateBlocklists(fetch: string -> FetchResult)
      modifies this
      ensures blocklists == Updated(old(blocklists), RemoteUpdates, fetch, Parsed)
      ensures customDomains == old(customDomains)
      ensures old(Normalized()) ==> Normalized()
    {
      ApplyUpdates(RemoteUpdates, fetch);
    }

    /** The loop of `updateBlocklists` over a list of downloads. */
    method ApplyUpdates(updates: seq<Source>, fetch: string -> FetchResult)
      modifies this
      ensures blocklists == Updated(old(blocklists), updates, fetch, Parsed)
      ensures customDomains == old(customDomains)
      ensures old(Normalized()) ==> Normalized()
    {
      var i := 0;
      while i < |updates|
        invariant 0 <= i <= |updates|
        invariant blocklists == Updated(old(blocklists), updates[..i], fetch, Parsed)
        invariant customDomains == old(customDomains)
        invariant old(Normalized()) ==> Normalized()
      {
        UpdatedStep(old(blocklists), updates, fetch, Parsed, i);
        ApplyUpdate(updates[i], fetch);
        i := i + 1;
      }
      assert updates[..i] == updates;
    }

    /** One pass of the loop of `updateBlocklists`: a successful download replaces the entry with its parse. */
    method ApplyUpdate(update: Source, fetch: string -> FetchResult)
      modifies this
      ensures blocklists ==
                match fetch(update.locator)
                case Fetched(text) => old(blocklists)[update.name := Parsed(text)]
                case FetchFailed => old(blocklists)
      ensures customDomains == old(customDomains)
      ensures old(Normalized()) ==> Normalized()
    {
      match fetch(update.locator) {
        case Fetched(text) =>
          var domains := ParseBlocklist(text);
          StoreParsedNormalized(blocklists, update.name, text);
          blocklists := blocklists[update.name := domains];
        case FetchFailed =>
      }
    }

    /**
     * `getAllBlockedDomains`: every domain of every list and of the custom
     * set, each exactly once.
     */
    method GetAllBlockedDomains() returns (all: seq<string>)
      ensures forall i, j :: 0 <= i < j < |all| ==> all[i] != all[j]
      ensures forall d :: d in all <==> d in AllBlocked()
      ensures |all| == |AllBlocked()|
    {
      var merged: set<string> := {};
      var pending := blocklists.Keys;
      while pending != {}
        invariant pending <= blocklists.Keys
        invariant merged == UnionOf(blocklists, blocklists.Keys - pending)
        decreases pending
      {
        var name :| name in pending;
        UnionOfAddName(blocklists, blocklists.Keys - pending, name);
        assert blocklists.Keys - (pending - {name}) == (blocklists.Keys - pending) + {name};
        merged := merged + blocklists[name];
        pending := pending - {name};
      }
      assert blocklists.Keys - pending == blocklists.Keys;
      merged := merged + customDomains;
      assert merged == AllBlocked();
      all := ToSequence(merged);
    }

    /** `getTotalDomains`: the size of the merged block set, duplicates across lists counted once. */
    method GetTotalDomains() returns (total: nat)
      ensures total == |AllBlocked()|
    {
      var all := GetAllBlockedDomains();
      total := |all|;
    }

    /**
     * `addCustomDomain`: accepts exactly the valid domains, storing them
     * lowercased. Saving the custom set to storage is not modelled.
     */
    method AddCustomDomain(domain: string) returns (added: bool)
      modifies this`customDomains
      ensures added == IsValidDomain(domain)
      ensures customDomains == if added then old(customDomains) + {Lower(domain)} else old(customDomains)
      ensures blocklists == old(blocklists)
      ensures old(Normalized()) ==> Normalized()
    {
      if IsValidDomain(domain) {
        ValidDomainIgnoresCase(domain);
        customDomains := customDomains + {Lower(domain)};
        added := true;
      } else {
        added := false;
      }
    }

    /**
     * `removeCustomDomain`: deletes the lowercased domain and reports
     * whether it was there. Saving the custom set to storage is not modelled.
     */
    method RemoveCustomDomain(domain: string) returns (removed: bool)
      modifies this`customDomains
      ensures removed == (Lower(domain) in old(customDomains))
      ensures customDomains == old(customDomains) - {Lower(domain)}
      ensures blocklists == old(blocklists)
      ensures old(Normalized()) ==> Normalized()
    {
      var key := Lower(domain);
      removed := key in customDomains;
      customDomains := customDomains - {key};
    }

    /**
     * `loadCustomDomains`: replaces the custom set with the list read back
     * from storage, as stored (neither validated nor lowercased); nothing
     * changes when nothing readable is stored.
     */
    method LoadCustomDomains(saved: Option<seq<string>>)
      modifies this`customDomains
      ensures customDomains == if saved.Some? then set d <- saved.value else old(customDomains)
      ensures blocklists == old(blocklists)
    {
      if saved.Some? {
        customDomains := set d <- saved.value;
      }
    }
  }
}
