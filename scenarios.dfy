/**
 * Concrete behaviour of the blocklist engine and the dispatcher on sample
 * inputs: an AdBlock rule, names below and look-alike names, a three-list
 * merge. Each is derived from the general lemmas.
 */
module Scenarios {
  import opened Wrappers
  import opened Text
  import opened Blocklist
  import opened DnsProxy

  lemma {:induction false} LabelLacksDot(part: string)
    requires IsValidLabel(part)
    ensures '.' !in part
  {
    assert !IsLabelChar('.');
  }

  /** Three dot-free labels joined by dots split back into those labels. */
  lemma {:induction false} ThreeLabelSplit(a: string, b: string, c: string)
    requires IsValidLabel(a) && IsValidLabel(b) && IsValidLabel(c)
    ensures Split(a + "." + b + "." + c, '.') == [a, b, c]
  {
    LabelLacksDot(a);
    LabelLacksDot(b);
    LabelLacksDot(c);
    SplitWithoutSeparator(a, '.');
    SplitWithoutSeparator(b, '.');
    SplitWithoutSeparator(c, '.');
    var tail := b + ['.'] + c;
    SplitAtSeparator(b, c, '.');
    SplitAtSeparator(a, tail, '.');
    assert a + "." + b + "." + c == a + ['.'] + tail;
  }

  /** A name of three labels is a valid domain when each label is and it is short enough. */
  lemma {:induction false} ThreeLabels(a: string, b: string, c: string)
    requires IsValidLabel(a) && IsValidLabel(b) && IsValidLabel(c)
    requires |a| + |b| + |c| + 2 <= MaxDomainLength
    ensures IsValidDomain(a + "." + b + "." + c)
  {
    ThreeLabelSplit(a, b, c);
  }

  lemma TrackerIsValid()
    ensures IsValidDomain("tracker.example.com")
  {
    ThreeLabels("tracker", "example", "com");
    assert "tracker" + "." + "example" + "." + "com" == "tracker.example.com";
  }

  // The sample lemmas below take their string literal as a parameter fixed by
  // `requires`, which keeps the solver from unrolling the literal.

  /** `||ads.example.com^` contributes `ads.example.com`. */
  lemma {:induction false} AdBlockSample(name: string)
    requires name == "ads.example.com"
    ensures LineDomain("||" + name + "^") == Some(name)
  {
    AdBlockRuleLine(name);
    LowerOfLowerCase(name);
  }

  /** With `example.com` blocked, names below it are blocked, at any depth. */
  lemma {:induction false} SubdomainExamples(entry: string)
    requires entry == "example.com"
    ensures IsBlockedBy({entry}, "www." + entry)
    ensures IsBlockedBy({entry}, "a.b." + entry)
  {
    SubdomainClosure({entry}, "www", entry);
    assert "www" + "." + entry == "www." + entry;
    SubdomainClosure({entry}, "a.b", entry);
    assert "a.b" + "." + entry == "a.b." + entry;
  }

  /** With `example.com` blocked, names that merely contain it as text are not. */
  lemma {:induction false} LookalikeExamples(entry: string)
    requires entry == "example.com"
    ensures !IsBlockedBy({entry}, "x" + entry)
    ensures !IsBlockedBy({entry}, entry + ".evil.net")
  {
    SingleEntryMatch(entry, "x" + entry);
    assert ("x" + entry)[0] == 'x';
    var far := entry + ".evil.net";
    SingleEntryMatch(entry, far);
    assert |far| - |entry| - 1 == 8 && far[8] == entry[8] == 'c';
  }

  /** Three single-domain sources merge into three domains. */
  lemma MergeExample()
    ensures Merged(map["s1" := {"a.com"}, "s2" := {"b.com"}], {"c.com"}) == {"a.com", "b.com", "c.com"}
    ensures |Merged(map["s1" := {"a.com"}, "s2" := {"b.com"}], {"c.com"})| == 3
  {
    var lists := map["s1" := {"a.com"}, "s2" := {"b.com"}];
    assert "s1" in lists.Keys && "s2" in lists.Keys;
    assert UnionOf(lists, lists.Keys) == {"a.com", "b.com"};
  }

  /** A source whose load fails does not hide the domains of a source that loaded. */
  lemma {:induction false} LoadIsolation(lists: map<string, set<string>>, custom: set<string>,
                      loaded: string, failed: string, text: string)
    requires loaded != failed
    ensures var after := lists[loaded := LoadedSet(Fetched(text))][failed := LoadedSet(FetchFailed)];
            && after[failed] == {}
            && Parsed(text) <= Merged(after, custom)
  {
    var after := lists[loaded := Parsed(text)][failed := {}];
    forall d <- Parsed(text) ensures d in Merged(after, custom) {
      assert loaded in after.Keys && d in after[loaded];
    }
  }

  /** Adding a custom domain stores it lowercased, removing it takes it out, and removing it again reports false. */
  method CustomDomainRoundTrip(domain: string)
    requires IsValidDomain(domain)
  {
    var manager := new BlocklistManager();
    var added := manager.AddCustomDomain(domain);
    assert added && manager.customDomains == {Lower(domain)};
    LowerOfLowerCase(Lower(domain));
    var removed := manager.RemoveCustomDomain(Lower(domain));
    assert removed && manager.customDomains == {};
    removed := manager.RemoveCustomDomain(domain);
    assert !removed;
  }

  /** A fresh manager holding one custom domain reloads into a proxy set holding just its lowercase form. */
  lemma {:induction false} SingleCustomReload(domain: string)
    requires IsValidDomain(domain)
    ensures LowerImage(Merged(map[], {} + {Lower(domain)})) == {Lower(domain)}
  {
    var entry := Lower(domain);
    assert {} + {entry} == {entry};
    assert Merged(map[], {entry}) == {entry};
    ReloadOfLowercaseIsExact(map[], {entry});
  }

  /** Appending a letter to a blocked entry gives a name the entry does not block. */
  lemma {:induction false} LookalikeAllowed(domain: string)
    requires IsValidDomain(domain)
    ensures !IsBlockedBy({Lower(domain)}, Lower(domain) + "x")
  {
    var entry := Lower(domain);
    ValidDomainIgnoresCase(domain);
    ValidDomainShape(entry);
    SingleEntryMatch(entry, entry + "x");
    assert (entry + "x")[0] == entry[0];
  }

  /**
   * Once a custom domain is added and the proxy reloaded, a query for it,
   * in any letter case, gets the sinkhole answer under the query's id and
   * spelled as the query spelled it, a query for a name below it is blocked
   * too, and a look-alike name with a failing upstream gets SERVFAIL.
   */
  method BlockedQueryRoundTrip(domain: string, id: int)
    requires IsValidDomain(domain)
  {
    var manager := new BlocklistManager();
    var added := manager.AddCustomDomain(domain);
    var proxy := new DNSProxy();
    proxy.LoadBlockedDomains(manager);
    var entry := Lower(domain);
    SingleCustomReload(domain);
    assert proxy.blockedDomains == {entry};

    AddedCustomDomainIsBlocked(map[], {}, domain, "www");
    var r := proxy.HandleDNSQuery(Query(id, domain, "A"), UpstreamFailed);
    assert r.id == id && r.answers == Some([Answer(domain, "A", SinkholeAddress, BlockedTtl)]);
    assert proxy.blockedCount == 1;

    var sub := "www" + "." + entry;
    LowerOfLowerCase(sub);
    r := proxy.HandleDNSQuery(Query(id, sub, "A"), UpstreamFailed);
    assert r.answers == Some([Answer(sub, "A", SinkholeAddress, BlockedTtl)]);
    assert proxy.blockedCount == 2;

    var lookalike := entry + "x";
    LowerOfLowerCase(lookalike);
    LookalikeAllowed(domain);
    r := proxy.HandleDNSQuery(Query(id, lookalike, "A"), UpstreamFailed);
    assert r.rcode == Some(ServFail) && r.answers == None;
    assert proxy.blockedCount == 2;
  }
}
