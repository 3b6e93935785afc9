# webOS ad blocker: blocklist engine and DNS query dispatcher

This project models the two pieces of the webOS ad blocker that hold its logic, and proves properties of them.

The first piece is the blocklist engine, `BlocklistManager`. It has four parts:

- a line parser. It turns list text in three formats into a set of lowercase domains:
  - AdBlock rules `||name^`;
  - hosts-file lines `address name`;
  - bare names.
- a domain-syntax validator;
- a registry of named lists. Loads and updates replace an entry wholesale.
- a custom-domain set, edited one domain at a time, and the union query over lists and custom set.

The second piece is the DNS query dispatcher, `DNSProxy`. It has three parts:

- the suffix-walk classifier. A name is blocked when it, or a parent obtained by dropping leading labels, is in the block set.
- the reload of the block set from the manager;
- the per-query choice between a sinkhole answer and an upstream lookup.

Files:

- `wrappers.dfy`: `Option`, standing in for `null` and `undefined`.
- `text.dfy` (module `Text`): the JavaScript string operations the core relies on, over ASCII. These are `toLowerCase`, `trim`, `split(sep)`, `split(/\s+/)` and `join`, with their algebra.
- `blocklist_manager.dfy` (module `Blocklist`):
  - the validator (`IsValidDomain`);
  - what one line contributes (`LineDomain`) and the parse of a text (`Parsed`);
  - the registry functions (`Updated`, `Merged`);
  - the class `BlocklistManager`. Its methods update the fields `blocklists` and `customDomains` in place.
- `dns_proxy.dfy` (module `DnsProxy`):
  - the classifier (`IsBlockedBy`) and the response builders;
  - the class `DNSProxy`, with the fields `blockedDomains` and `blockedCount`.
- `scenarios.dfy` (module `Scenarios`):
  - sample inputs, derived from the general lemmas;
  - two client methods, `CustomDomainRoundTrip` and `BlockedQueryRoundTrip`. They drive the classes through add, reload, query and remove.

Inputs the original obtains from the outside world become parameters:

- a download is `fetch: string -> FetchResult`, where `FetchResult` is `Fetched(text)` or `FetchFailed`;
- the upstream DNS-over-HTTPS lookup is `UpstreamResult`, either `Resolved(answers?)` or `UpstreamFailed`;
- the custom list read back from storage is an `Option<seq<string>>`;
- the manager reached through the global application object is passed explicitly;
- the blocked-query counter kept on that object is a field of `DNSProxy`.

Where the code's behaviour looks unintended, the model follows the code:

- an AdBlock rule's name is not validated;
- the hosts branch is entered only for a literal space, so a hosts line whose only whitespace is tabs yields nothing;
- a failed remote update keeps the list's previous set, while a failed initial load stores the empty set;
- the sinkhole answer carries the query's name in its original letter case.

## Model

| member | source | states |
|---|---|---|
| Text.Lower | js/blocklist-manager.js:73 | `toLowerCase` keeps the length, lowercases every ASCII letter position by position, and leaves no upper-case letter |
| Text.Trim | js/blocklist-manager.js:46 | the trimmed line is no longer than the line, neither starts nor ends with whitespace, and is the line itself when it holds no whitespace |
| Text.TrimIsInfix | js/blocklist-manager.js:46 | `trim` removes whitespace at the ends and nothing else: the result is the slice of the line between a whitespace-only prefix and a whitespace-only suffix |
| Text.Split | js/dns-proxy.js:98 | `split(sep)` with a one-character separator: the pieces between separators, always at least one; the lemmas below pin the pieces down |
| Text.SplitWithoutSeparator | js/blocklist-manager.js:43 | a string without the separator splits into itself alone |
| Text.SplitAtSeparator | js/blocklist-manager.js:43 | splitting `a + sep + b` gives the pieces of `a` followed by the pieces of `b` |
| Text.SplitPiecesLackSeparator | js/dns-proxy.js:98 | no piece of `split(sep)` contains the separator |
| Text.Join | js/dns-proxy.js:100 | `join(sep)`: the pieces with one separator between neighbours; `JoinSplit` and `JoinAppend` state its properties |
| Text.JoinSplit | js/dns-proxy.js:98-100 | `join(sep)` undoes `split(sep)` |
| Text.JoinAppend | js/dns-proxy.js:100 | joining two non-empty piece lists puts exactly one separator between their joins |
| Text.SplitWhitespace | js/blocklist-manager.js:62 | `split(/\s+/)`: the pieces between maximal runs of whitespace, with an empty first piece when the string starts with whitespace; always at least one piece |
| Text.SplitWhitespaceTwoWords | js/blocklist-manager.js:62 | `split(/\s+/)` of `a b`, with `a` and `b` whitespace-free and `b` non-empty, is exactly `[a, b]` |
| Text.SplitWhitespaceOneWord | js/blocklist-manager.js:62 | `split(/\s+/)` of a whitespace-free string is that string alone |
| Text.SplitLower | js/dns-proxy.js:77-98 | lowercasing and then splitting on a non-letter separator equals splitting and then lowercasing each piece |
| Blocklist.IsValidDomain | js/blocklist-manager.js:80-84 | `isValidDomain`: every dot-separated label is 1 to 63 letters, digits or `-`, starting and ending with a letter or digit, and the name has at most 253 characters; `ValidDomainShape` states its consequences |
| Blocklist.JoinedLabelsWellDotted | js/blocklist-manager.js:82 | labels joined by dots have no leading, trailing or doubled dot, and hold only label characters and dots |
| Blocklist.ValidDomainShape | js/blocklist-manager.js:80-84 | a valid domain is non-empty and at most 253 characters long, and has no leading, trailing or doubled dot. Each character is a letter, digit, `-` or `.`. Every label has 1 to 63 characters and starts and ends with a letter or digit |
| Blocklist.ValidDomainIgnoresCase | js/blocklist-manager.js:82-83 | a name is valid exactly when its lowercase form is, so lowercasing never turns an accepted name into a rejected one |
| Blocklist.ValidDomainHasNoWhitespace | js/blocklist-manager.js:82 | a valid domain contains no whitespace |
| Blocklist.LineDomain | js/blocklist-manager.js:46-73 | what one line contributes: nothing for a blank or comment line, the unvalidated lowercased name of an AdBlock rule, the second token of a line with a space when it is a valid domain, or else the whole trimmed line when it is a valid domain; the lemmas below state each case |
| Blocklist.LineDomainShape | js/blocklist-manager.js:46-73 | a blank or comment line contributes nothing. What any line contributes is non-empty and lowercase, and comes from a trimmed line that is non-empty and starts with neither `#` nor `!` |
| Blocklist.AdBlockRuleLine | js/blocklist-manager.js:57-59 | `\|\|name^` contributes exactly the lowercased name, with no validation of it, and nothing when the name is empty |
| Blocklist.HostsLine | js/blocklist-manager.js:61-65 | `address name`, two whitespace-free tokens with one space between them, contributes the lowercased name when it is a valid domain and nothing otherwise, whatever the address |
| Blocklist.TabSeparatedHostsLine | js/blocklist-manager.js:61-70 | the same two tokens separated by a tab contribute nothing, because the line has no space and is not a valid domain as a whole |
| Blocklist.PlainLine | js/blocklist-manager.js:68-70 | a bare whitespace-free name that is neither a comment nor an AdBlock rule contributes its lowercase form when it is a valid domain, and nothing otherwise |
| Blocklist.GatherMembers | js/blocklist-manager.js:45-75 | a name is in the union over the lines exactly when some line contributes it |
| Blocklist.Parsed | js/blocklist-manager.js:41-78 | `parseBlocklist(text)`: the union of what each `\n`-separated line contributes; `ParseBlocklist` is proved to compute it |
| Blocklist.ParsedShape | js/blocklist-manager.js:41-78 | every member of `parseBlocklist(text)` is non-empty and lowercase. Each is what some `\n`-separated line contributes, and that line is neither blank nor a comment |
| Blocklist.ParsedConcat | js/blocklist-manager.js:43-45 | lines are parsed independently: the parse of `a + "\n" + b` is the union of the parses of `a` and `b` |
| Blocklist.ParsedDuplicate | js/blocklist-manager.js:73 | repeating a text adds nothing: duplicate lines collapse in the set |
| Blocklist.ParsedSingleLine | js/blocklist-manager.js:43-75 | a text without a newline is parsed as one line |
| Blocklist.LoadedSet | js/blocklist-manager.js:25-39 | the set `loadBlocklist` stores: the parse of the fetched text, or the empty set when the fetch fails |
| Blocklist.Updated | js/blocklist-manager.js:99-114 | the registry after an update run: each successful download, in order, replaces its list with the parse, and a failed one leaves it alone; the `Updated*` lemmas state its properties |
| Blocklist.UpdatedKeepsOthers | js/blocklist-manager.js:99-114 | an update run leaves every list it does not name as it was, present or absent |
| Blocklist.UpdatedKeepsOnFailure | js/blocklist-manager.js:111-113 | a list whose every download fails keeps its previous set |
| Blocklist.UpdatedTakesLastSuccess | js/blocklist-manager.js:101-109 | a list whose last download succeeds holds the parse of that download |
| Blocklist.UnionOf | js/blocklist-manager.js:129-131 | the union of the sets of the named lists |
| Blocklist.Merged | js/blocklist-manager.js:126-137 | the set `getAllBlockedDomains` lists: every list's members and the custom domains |
| Blocklist.UnionOfAddName | js/blocklist-manager.js:130-132 | adding one list's name to the merged names adds exactly that list's set to the union |
| Blocklist.MergedAfterReplace | js/blocklist-manager.js:126-135 | after an entry is replaced, the union is the other lists' union plus the new set plus the custom set |
| Blocklist.StoreParsedNormalized | js/blocklist-manager.js:30-31 | storing a parse keeps every stored entry non-empty and lowercase |
| Blocklist.ToSequence | js/blocklist-manager.js:137 | `Array.from` on a set lists each member exactly once and nothing else |
| Blocklist.BlocklistManager.constructor | js/blocklist-manager.js:2-5 | the registry and the custom set start empty |
| Blocklist.BlocklistManager.ParseBlocklist | js/blocklist-manager.js:41-78 | the loop over the lines returns exactly `Parsed(text)`, the union of what each line contributes |
| Blocklist.BlocklistManager.LoadBlocklist | js/blocklist-manager.js:25-39 | only the entry `name` changes: to the parse of the fetched text, or to the empty set when the fetch fails. The custom set is unchanged and normal form is kept |
| Blocklist.BlocklistManager.LoadBlocklists | js/blocklist-manager.js:7-23 | the three bundled lists are loaded in turn, each entry set independently of whether the others failed |
| Blocklist.BlocklistManager.UpdateBlocklists | js/blocklist-manager.js:86-115 | the registry becomes `Updated` over the two remote sources, and the custom set is unchanged |
| Blocklist.BlocklistManager.ApplyUpdates | js/blocklist-manager.js:99-114 | the loop over the sources yields `Updated(old registry, sources)`: a success replaces that entry with the parse, a failure keeps it |
| Blocklist.BlocklistManager.ApplyUpdate | js/blocklist-manager.js:100-113 | one pass of the loop: a successful download replaces the entry with the parse of its text, a failed one leaves the registry as it was; the custom set and normal form are kept |
| Blocklist.BlocklistManager.GetAllBlockedDomains | js/blocklist-manager.js:126-138 | the result has no duplicates. It holds exactly the members of every list and of the custom set, and its length is the size of that union |
| Blocklist.BlocklistManager.GetTotalDomains | js/blocklist-manager.js:140-142 | the count is the size of the merged set, with a domain in several lists counted once |
| Blocklist.BlocklistManager.AddCustomDomain | js/blocklist-manager.js:144-151 | returns true exactly when the domain is valid. It then adds its lowercase form, otherwise the set is unchanged. Lists are untouched |
| Blocklist.BlocklistManager.RemoveCustomDomain | js/blocklist-manager.js:153-159 | returns whether the lowercased domain was present and removes it. Lists are untouched |
| Blocklist.BlocklistManager.LoadCustomDomains | js/blocklist-manager.js:170-180 | a readable stored list replaces the custom set as stored, and otherwise nothing changes |
| DnsProxy.IsBlockedBy | js/dns-proxy.js:91-107 | `isDomainBlocked`: the name, or the join of the labels from some later position on, is in the set; `BlockedIffDotSuffix` restates it on characters |
| DnsProxy.BlockedIffDotSuffix | js/dns-proxy.js:91-107 | a name is blocked exactly when it, or the text after one of its dots, is in the set |
| DnsProxy.SubdomainClosure | js/dns-proxy.js:98-103 | if `e` is blocked then `p.e` is blocked, for every `p` |
| DnsProxy.SingleEntryMatch | js/dns-proxy.js:93-106 | with one entry `e`, a name is blocked exactly when it is `e` or ends with `.e`. Names that merely end with or contain `e` as text are allowed |
| DnsProxy.LowerImage | js/dns-proxy.js:23-26 | the set the reload builds: the lowercased form of each merged name |
| DnsProxy.ReloadOfLowercaseIsExact | js/dns-proxy.js:23-26 | when every name in the merged set is lowercase, whether a valid domain or not, the reloaded set is exactly the merged set |
| DnsProxy.NormalizedMergeIsLowercase | js/dns-proxy.js:23-26 | a manager in normal form (lists as parsed, custom domains as accepted) holds only lowercase names, so its reload is exact |
| DnsProxy.AddedCustomDomainIsBlocked | js/dns-proxy.js:20-26 | after a custom domain is accepted and the set reloaded, the domain and every name below it are blocked |
| DnsProxy.BlockedResponse | js/dns-proxy.js:115-125 | keeps the query id, sets `response` and `authoritative`, and carries one answer: the query's name as given, type `A`, `0.0.0.0`, ttl 300 |
| DnsProxy.ErrorResponse | js/dns-proxy.js:161-167 | keeps the query id, sets `response`, and carries rcode 2 (SERVFAIL) and no answers |
| DnsProxy.ForwardQuery | js/dns-proxy.js:128-159 | never fails. An upstream failure gives the SERVFAIL response; a success gives the same id and the upstream `Answer` list, or `[]` when absent |
| DnsProxy.Dispatch | js/dns-proxy.js:76-89 | classifies the lowercased name. A blocked name gets the sinkhole answer and any other is forwarded. Either way the response answers the query, with either records or SERVFAIL |
| DnsProxy.DNSProxy.constructor | js/dns-proxy.js:2-7 | the block set starts empty and the counter at zero |
| DnsProxy.DNSProxy.IsDomainBlocked | js/dns-proxy.js:91-107 | the exact-match test followed by the walk over parents decides `IsBlockedBy`, and reads the set without changing it |
| DnsProxy.DNSProxy.LoadBlockedDomains | js/dns-proxy.js:16-33 | clears the set and refills it with exactly the lowercased image of the manager's merged set, which for a manager in normal form is the merged set itself; the counter is unchanged |
| DnsProxy.DNSProxy.ReloadBlocklists | js/dns-proxy.js:181-184 | the same reload |
| DnsProxy.DNSProxy.CreateBlockedResponse | js/dns-proxy.js:109-126 | returns the sinkhole response and raises the counter by exactly one |
| DnsProxy.DNSProxy.HandleDNSQuery | js/dns-proxy.js:76-89 | leaves the block set unchanged and returns `Dispatch` of the query. The counter rises by one exactly when the lowercased name is blocked |
| Scenarios.ThreeLabelSplit | js/dns-proxy.js:98 | three labels joined by dots split back into those three labels |
| Scenarios.ThreeLabels | js/blocklist-manager.js:82-83 | three valid labels joined by dots, within 253 characters, form a valid domain |
| Scenarios.TrackerIsValid | js/blocklist-manager.js:82-83 | `tracker.example.com` is a valid domain |
| Scenarios.AdBlockSample | js/blocklist-manager.js:57-59 | `\|\|ads.example.com^` contributes `ads.example.com` |
| Scenarios.SubdomainExamples | js/dns-proxy.js:98-103 | with `example.com` blocked, `www.example.com` and `a.b.example.com` are blocked |
| Scenarios.LookalikeExamples | js/dns-proxy.js:93-106 | with `example.com` blocked, `xexample.com` and `example.com.evil.net` are not |
| Scenarios.MergeExample | js/blocklist-manager.js:126-137 | two single-domain lists and one custom domain merge into three domains |
| Scenarios.LoadIsolation | js/blocklist-manager.js:25-39 | a list whose load fails is empty, and does not hide the domains of a list that loaded |
| Scenarios.SingleCustomReload | js/dns-proxy.js:20-26 | a manager holding one custom domain reloads into a block set holding just its lowercase form |
| Scenarios.LookalikeAllowed | js/dns-proxy.js:93-106 | appending a letter to a valid blocked name gives a name that entry does not block |

## Left out

- Network and storage I/O are left out: `fetch`, `response.text()`, `response.json()`, the DNS-over-HTTPS URL and headers, and `localStorage`. Downloads, the upstream lookup and the stored custom list are inputs; an HTTP error status is not distinguished from a body.
- `saveBlocklist` and `saveCustomDomains` are not modelled; they only persist state and catch their own errors, so they change nothing in the model.
- Console logging is not modelled.
- Server lifecycle is not modelled: `initialize`, `start`, `stop`, `createDNSServer`, `createWebSocketDNSProxy` and the Luna handler registration are platform service calls.
- `async`/`await` interleavings are not modelled; every operation is one sequential step.
- `trim`, `\s` and `toLowerCase` are modelled over ASCII only; Unicode whitespace and non-ASCII case mappings are not.
- The regular expression of `isValidDomain` is stated as an explicit per-label predicate, not through a regex engine.
- js/main.js (UI, settings and the platform DNS calls) is not part of this model.
- Blocklist.BlocklistManager.GetAllBlockedDomains: the order of the returned array, which follows JavaScript set iteration order, is not modelled; only its members, its lack of duplicates and its length are.
- Blocklist.ToSequence: the order it lists members in is unspecified, for the same reason.
- Blocklist.BlocklistManager.LoadCustomDomains: a stored value that parses to something other than a list of strings is not modelled; `None` stands for a missing, empty or unparsable entry.
- DnsProxy.ForwardQuery: the upstream `Answer` records are taken as already shaped like the sinkhole record; the field names and types of the DoH JSON are not modelled.
- DnsProxy.DNSProxy.CreateBlockedResponse: the counter is always present here; the original skips the increment when the application object is missing.
- DnsProxy.DNSProxy.LoadBlockedDomains: the manager is always present here; the original keeps the old set when reaching the manager throws.
