/**
 * The query dispatcher: the suffix-walk classifier over the blocked set, the
 * reload of that set from the blocklist registry, and the per-query choice
 * between a sinkhole answer and an upstream lookup.
 */
module DnsProxy {
  import opened Wrappers
  import opened Text
  import Blocklist

  /** An incoming query; the identifier is opaque to the proxy. */
  datatype Query = Query(id: int, domain: string, qtype: string)

  /** One answer record `{name, type, data, ttl}`. */
  datatype Answer = Answer(name: string, rtype: string, data: string, ttl: int)

  /** A response; the optional fields are the ones a builder may leave out. */
  datatype Response = Response(
    id: int,
    response: bool,
    authoritative: Option<bool>,
    rcode: Option<int>,
    answers: Option<seq<Answer>>)

  /**
   * What the upstream DNS-over-HTTPS lookup produced: the JSON body's
   * `Answer` array (absent when the body has none), or a failure of the
   * fetch or of the JSON decoding.
   */
  datatype UpstreamResult = Resolved(answer: Option<seq<Answer>>) | UpstreamFailed

  const SinkholeAddress := "0.0.0.0"
  const BlockedTtl := 300
  const ServFail := 2

  // ---------------------------------------------------------------------
  // Classification
  // ---------------------------------------------------------------------

  /**
   * `isDomainBlocked`: the name itself is in the set, or so is one of its
   * parents, obtained by dropping one or more leading dot-separated labels.
   */
  predicate IsBlockedBy(blocked: set<string>, domain: string) {
    || domain in blocked
    || var parts := Split(domain, '.');
       exists i :: 1 <= i < |parts| && Join(parts[i..], '.') in blocked
  }

  /**
   * The classifier matches on label boundaries only: a name is blocked
   * exactly when it, or the part of it after one of its dots, is in the set.
   */
  lemma {:induction false} BlockedIffDotSuffix(blocked: set<string>, domain: string)
    ensures IsBlockedBy(blocked, domain) <==>
              || domain in blocked
              || exists k :: 0 <= k < |domain| && domain[k] == '.' && domain[k + 1..] in blocked
  {
    var parts := Split(domain, '.');
    if i :| 1 <= i < |parts| && Join(parts[i..], '.') in blocked {
      JoinSplit(domain, '.');
      assert parts[..i] + parts[i..] == parts;
      JoinAppend(parts[..i], parts[i..], '.');
      var k := |Join(parts[..i], '.')|;
      assert domain[k] == '.' && domain[k + 1..] == Join(parts[i..], '.');
    }
    if k :| 0 <= k < |domain| && domain[k] == '.' && domain[k + 1..] in blocked {
      assert domain == domain[..k] + ['.'] + domain[k + 1..];
      SplitAtSeparator(domain[..k], domain[k + 1..], '.');
      var i := |Split(domain[..k], '.')|;
      assert parts[i..] == Split(domain[k + 1..], '.');
      JoinSplit(domain[k + 1..], '.');
    }
  }

  /** Blocking a name blocks every name below it: `p.e` is blocked whenever `e` is, whatever `p` is. */
  lemma {:induction false} SubdomainClosure(blocked: set<string>, prefix: string, entry: string)
    requires entry in blocked
    ensures IsBlockedBy(blocked, prefix + "." + entry)
  {
    var domain := prefix + "." + entry;
    assert domain[|prefix|] == '.' && domain[|prefix| + 1..] == entry;
    BlockedIffDotSuffix(blocked, domain);
  }

  /**
   * With a single entry `e` blocked, a name is blocked exactly when it is
   * `e` or ends with `.e`; names that merely end with or contain `e` as text
   * are allowed.
   */
  lemma {:induction false} SingleEntryMatch(entry: string, domain: string)
    ensures IsBlockedBy({entry}, domain) <==>
              || domain == entry
              || (|domain| > |entry| && domain[|domain| - |entry| - 1] == '.' && domain[|domain| - |entry|..] == entry)
  {
    BlockedIffDotSuffix({entry}, domain);
    if |domain| > |entry| && domain[|domain| - |entry| - 1] == '.' && domain[|domain| - |entry|..] == entry {
      var k := |domain| - |entry| - 1;
      assert domain[k + 1..] in {entry};
    }
  }

  /** The lowercased image of a set of names. */
  function LowerImage(s: set<string>): set<string> {
    set d <- s :: Lower(d)
  }

  /** When every stored name is already lowercase, the reloaded set is exactly the manager's merged set. */
  lemma {:induction false} ReloadOfLowercaseIsExact(lists: map<string, set<string>>, custom: set<string>)
    requires forall d <- Blocklist.Merged(lists, custom) :: IsLowerCase(d)
    ensures LowerImage(Blocklist.Merged(lists, custom)) == Blocklist.Merged(lists, custom)
  {
    var merged := Blocklist.Merged(lists, custom);
    forall d <- merged ensures Lower(d) in merged && d in LowerImage(merged) {
      LowerOfLowerCase(d);
    }
  }

  /** A manager in normal form holds only lowercase names, so its reload is exact. */
  lemma {:induction false} NormalizedMergeIsLowercase(lists: map<string, set<string>>, custom: set<string>)
    requires Blocklist.ListsNormalized(lists) && Blocklist.CustomNormalized(custom)
    ensures forall d <- Blocklist.Merged(lists, custom) :: IsLowerCase(d)
  {
    forall d <- Blocklist.Merged(lists, custom) ensures IsLowerCase(d) {
      if d !in custom {
        var n :| n in lists.Keys && n in lists && d in lists[n];
      }
    }
  }

  /**
   * End to end: after a custom domain is accepted and the proxy reloads, the
   * domain and every name below it are blocked.
   */
  lemma {:induction false} AddedCustomDomainIsBlocked(lists: map<string, set<string>>, custom: set<string>,
                                   domain: string, prefix: string)
    requires Blocklist.IsValidDomain(domain)
    ensures var reloaded := LowerImage(Blocklist.Merged(lists, custom + {Lower(domain)}));
            && IsBlockedBy(reloaded, Lower(domain))
            && IsBlockedBy(reloaded, prefix + "." + Lower(domain))
  {
    var merged := Blocklist.Merged(lists, custom + {Lower(domain)});
    assert Lower(domain) in merged;
    LowerOfLowerCase(Lower(domain));
    assert Lower(domain) in LowerImage(merged);
    SubdomainClosure(LowerImage(merged), prefix, Lower(domain));
  }

  // ---------------------------------------------------------------------
  // Responses
  // ---------------------------------------------------------------------

  /**
   * Every query is answered: the response carries the query's id and the
   * response flag, and either answer records or the SERVFAIL code, never
   * both and never neither.
   */
  predicate Answers(r: Response, query: Query) {
    && r.id == query.id
    && r.response
    && (r.answers.Some? <==> r.rcode != Some(ServFail))
  }

  /** The record part of `createBlockedResponse`: one sinkhole answer for the name as the query spelled it. */
  function BlockedResponse(query: Query): (r: Response)
    ensures Answers(r, query)
    ensures r.authoritative == Some(true)
    ensures r.answers == Some([Answer(query.domain, "A", SinkholeAddress, BlockedTtl)])
  {
    Response(query.id, true, Some(true), None, Some([Answer(query.domain, "A", SinkholeAddress, BlockedTtl)]))
  }

  /** `createErrorResponse`: a SERVFAIL answer to the query, without records. */
  function ErrorResponse(query: Query): (r: Response)
    ensures Answers(r, query)
    ensures r.rcode == Some(ServFail) && r.answers == None
  {
    Response(query.id, true, None, Some(ServFail), None)
  }

  /**
   * `forwardQuery`: the upstream answers (an empty list when the body has
   * none) under the query's id, or the SERVFAIL response when the lookup
   * failed; it never fails itself.
   */
  function ForwardQuery(query: Query, upstream: UpstreamResult): (r: Response)
    ensures Answers(r, query)
    ensures upstream.UpstreamFailed? ==> r == ErrorResponse(query)
    ensures upstream.Resolved? ==>
              r.answers == Some(if upstream.answer.Some? then upstream.answer.value else [])
  {
    match upstream
    case Resolved(answer) =>
      Response(query.id, true, None, None, Some(if answer.Some? then answer.value else []))
    case UpstreamFailed =>
      ErrorResponse(query)
  }

  /**
   * The response `handleDNSQuery` returns: the name is lowercased and
   * classified; a blocked name gets the sinkhole response, any other is
   * forwarded.
   */
  function Dispatch(blocked: set<string>, query: Query, upstream: UpstreamResult): (r: Response)
    ensures Answers(r, query)
    ensures IsBlockedBy(blocked, Lower(query.domain)) ==>
              r.authoritative == Some(true) &&
              r.answers == Some([Answer(query.domain, "A", SinkholeAddress, BlockedTtl)])
    ensures !IsBlockedBy(blocked, Lower(query.domain)) ==> r == ForwardQuery(query, upstream)
  {
    if IsBlockedBy(blocked, Lower(query.domain)) then BlockedResponse(query)
    else ForwardQuery(query, upstream)
  }

  /**
   * The state of `DNSProxy` that the core uses: the blocked set, and the
   * blocked-query counter (kept on the application object in the original,
   * held here as a field).
   */
  class DNSProxy {
    var blockedDomains: set<string>
    var blockedCount: nat

    constructor ()
      ensures blockedDomains == {} && blockedCount == 0
    {
      blockedDomains := {};
      blockedCount := 0;
    }

    /** `isDomainBlocked`: the exact name, then each parent from the longest down; reads the set and changes nothing. */
    method IsDomainBlocked(domain: string) returns (blocked: bool)
      ensures blocked == IsBlockedBy(blockedDomains, domain)
    {
      if domain in blockedDomains {
        return true;
      }
      var parts := Split(domain, '.');
      var i := 1;
      while i < |parts|
        invariant 1 <= i <= |parts|
        invariant forall j :: 1 <= j < i ==> Join(parts[j..], '.') !in blockedDomains
      {
        var parentDomain := Join(parts[i..], '.');
        if parentDomain in blockedDomains {
          return true;
        }
        i := i + 1;
      }
      return false;
    }

    /**
     * `loadBlockedDomains`: clears the set and refills it with the
     * lowercased members of the manager's merged block set.
     */
    method LoadBlockedDomains(manager: Blocklist.BlocklistManager)
      modifies this
      ensures blockedDomains == LowerImage(manager.AllBlocked())
      ensures manager.Normalized() ==> blockedDomains == manager.AllBlocked()
      ensures blockedCount == old(blockedCount)
    {
      var domains := manager.GetAllBlockedDomains();
      blockedDomains := {};
      var i := 0;
      while i < |domains|
        invariant 0 <= i <= |domains|
        invariant blockedDomains == LowerImage(set d <- domains[..i])
        invariant blockedCount == old(blockedCount)
      {
        blockedDomains := blockedDomains + {Lower(domains[i])};
        i := i + 1;
      }
      assert domains[..i] == domains;
      assert (set d <- domains) == manager.AllBlocked();
      if manager.Normalized() {
        NormalizedMergeIsLowercase(manager.blocklists, manager.customDomains);
        ReloadOfLowercaseIsExact(manager.blocklists, manager.customDomains);
      }
    }

    /** `reloadBlocklists`: the same reload. */
    method ReloadBlocklists(manager: Blocklist.BlocklistManager)
      modifies this
      ensures blockedDomains == LowerImage(manager.AllBlocked())
      ensures manager.Normalized() ==> blockedDomains == manager.AllBlocked()
      ensures blockedCount == old(blockedCount)
    {
      LoadBlockedDomains(manager);
    }

    /** `createBlockedResponse`: counts the blocked query and builds the sinkhole response. */
    method CreateBlockedResponse(query: Query) returns (r: Response)
      modifies this`blockedCount
      ensures r == BlockedResponse(query)
      ensures blockedCount == old(blockedCount) + 1
    {
      blockedCount := blockedCount + 1;
      r := BlockedResponse(query);
    }

    /**
     * `handleDNSQuery`: classifies the lowercased name without touching the
     * set, then takes exactly one path: the sinkhole response, which bumps
     * the counter by one, or forwarding, which leaves it alone.
     */
    method HandleDNSQuery(query: Query, upstream: UpstreamResult) returns (r: Response)
      modifies this`blockedCount
      ensures blockedDomains == old(blockedDomains)
      ensures r == Dispatch(blockedDomains, query, upstream)
      ensures blockedCount == old(blockedCount) + (if IsBlockedBy(blockedDomains, Lower(query.domain)) then 1 else 0)
    {
      var domain := Lower(query.domain);
      var blocked := IsDomainBlocked(domain);
      if blocked {
        r := CreateBlockedResponse(query);
      } else {
        r := ForwardQuery(query, upstream);
      }
    }
  }
}
