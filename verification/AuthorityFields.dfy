/** What the gateway and the harness let through, told by the fields of requests, grants and
    configurations. */
module AuthorityFields {
  import opened Text
  import opened MemoryAuthority

  // ----- tools -----

  /** White space aside, these thirteen tools read, these sixteen write, and no other is known. */
  lemma ToolAccess(name: string)
    ensures MemoryToolAccessFor(name) == Some(Read) <==> Trim(name) in {
      "search_memory", "search_sources", "list_memory_domains", "load_entity_page", "load_timeline",
      "query_context_graph", "get_task", "list_tasks", "task_graph_projection", "project_executive_summary",
      "explain_executive_summary_item", "list_task_relations", "traverse_task_relations" }
    ensures MemoryToolAccessFor(name) == Some(Write) <==> Trim(name) in {
      "remember", "save_memory_candidate", "create_memory_domain", "remove_memory_domain",
      "refresh_compiled_page", "repair_memory_record", "submit_memory_correction", "mutate_context_graph",
      "create_task", "update_task", "complete_task", "cancel_task", "delete_task", "link_task_memory",
      "upsert_task_relation", "delete_task_relation" }
  {
  }

  /** A tool that is known and is not among those that only read. */
  predicate Writes(name: string) {
    Trim(name) in WRITE_TOOLS && Trim(name) !in READ_ONLY_TOOLS
  }

  predicate Known(name: string) {
    Trim(name) in READ_ONLY_TOOLS || Trim(name) in WRITE_TOOLS
  }

  // ----- the domains a call names -----

  /** The texts a call has where a domain can be named. */
  function NamedBy(call: Call): set<string> {
    (if "domain_id" in call.arguments && call.arguments["domain_id"].Text?
     then {Trim(call.arguments["domain_id"].text)} else {})
    + (if "firewall" in call.arguments && call.arguments["firewall"].Text?
       then {Trim(call.arguments["firewall"].text)} else {})
    + {Trim(call.domainId)}
  }

  lemma NamedAreSelectors(call: Call)
    ensures NamedBy(call) - {""} == Selectors(call) - {""}
  {
    TrimFixed("");
    if "domain_id" in call.arguments && call.arguments["domain_id"].Text? {
      TrimTwice(call.arguments["domain_id"].text);
    }
    if "firewall" in call.arguments && call.arguments["firewall"].Text? {
      TrimTwice(call.arguments["firewall"].text);
    }
  }

  lemma NamedSelect(call: Call, domain: string)
    ensures CallSelector(call) == Some(domain) <==>
      NamedBy(call) <= {"", domain} && (domain != "" ==> domain in NamedBy(call))
  {
    NamedAreSelectors(call);
    CallSelectorAgrees(call, domain);
    var named, selectors := NamedBy(call), Selectors(call);
    assert forall s :: s in named && s != "" <==> s in named - {""};
    assert forall s :: s in selectors && s != "" <==> s in selectors - {""};
  }

  // ----- bodies through the gateway -----

  predicate ToolCall(q: Request) {
    Trim(q.rpcMethod) == "tools/call"
  }

  /** The call's tool is known, and it names no domain but this one. */
  predicate Agrees(q: Request, domain: string) {
    q.params.Some? && Known(q.params.value.name) && NamedBy(q.params.value) <= {"", domain}
  }

  predicate Granted(values: seq<string>, domain: string) {
    domain != "" && exists v :: v in values && Trim(v) == domain
  }

  /** No other domain is granted. */
  predicate OnlyGrant(values: seq<string>, domain: string) {
    forall v :: v in values ==> Trim(v) == "" || Trim(v) == domain
  }

  predicate WritesToo(requests: seq<Request>) {
    exists q :: q in requests && ToolCall(q) && q.params.Some? && Writes(q.params.value.name)
  }

  predicate Names(requests: seq<Request>, requested: string, domain: string) {
    || Trim(requested) == domain
    || exists q :: q in requests && ToolCall(q) && q.params.Some? && domain in NamedBy(q.params.value)
  }

  /** Every tool call agrees on the domain and so does what is asked for beside the body; it is
      granted, for writing if some call writes and for reading otherwise; and if nobody names
      it, it is the only one. */
  predicate MayReach(policy: Policy, requests: seq<Request>, requested: string, domain: string) {
    var grants := if WritesToo(requests) then policy.writeDomains else policy.readDomains;
    && (forall q :: q in requests && ToolCall(q) ==> Agrees(q, domain))
    && (Trim(requested) == "" || Trim(requested) == domain)
    && Granted(grants, domain) && (Names(requests, requested, domain) || OnlyGrant(grants, domain))
  }

  lemma AllowedInFields(selected: string, values: seq<string>, domain: string)
    ensures Allowed(selected, Grants(values), domain) <==>
      Granted(values, domain) && if selected != "" then domain == selected else OnlyGrant(values, domain)
  {
    if Granted(values, domain) && OnlyGrant(values, domain) {
      assert Grants(values) == {domain};
    }
    if Grants(values) == {domain} {
      forall v | v in values ensures Trim(v) == "" || Trim(v) == domain {
        assert Trim(v) != "" ==> Trim(v) in Grants(values);
      }
    }
  }

  lemma ValidInFields(q: Request)
    ensures ValidCall(q) <==> q.params.Some? && Known(q.params.value.name) && CallSelector(q.params.value).Some?
    ensures ValidCall(q) ==> (AccessOf(q) == Write <==> Writes(q.params.value.name))
  {
  }

  /** A call agrees on the domain exactly if it is valid and its selector is blank or the domain. */
  lemma AgreesInFields(q: Request, domain: string)
    ensures Agrees(q, domain) ==> ValidCall(q)
    ensures ValidCall(q) ==>
      && (Agrees(q, domain) <==> SelectorOf(q) == "" || SelectorOf(q) == domain)
      && (domain != "" ==> (SelectorOf(q) == domain <==> Agrees(q, domain) && domain in NamedBy(q.params.value)))
  {
    ValidInFields(q);
    if q.params.Some? {
      NamedSelect(q.params.value, domain);
      NamedSelect(q.params.value, "");
      if CallSelector(q.params.value).Some? {
        NamedSelect(q.params.value, CallSelector(q.params.value).value);
      }
    }
  }

  lemma WritesInFields(requests: seq<Request>)
    requires forall q :: q in requests && IsCall(q) ==> ValidCall(q)
    ensures WritesToo(requests) <==> exists q :: q in requests && IsCall(q) && AccessOf(q) == Write
  {
    forall q | q in requests && IsCall(q)
      ensures AccessOf(q) == Write <==> q.params.Some? && Writes(q.params.value.name)
    {
      ValidInFields(q);
    }
    if WritesToo(requests) {
      var q :| q in requests && ToolCall(q) && q.params.Some? && Writes(q.params.value.name);
      assert IsCall(q) && AccessOf(q) == Write;
    }
    if q :| q in requests && IsCall(q) && AccessOf(q) == Write {
      assert ToolCall(q);
    }
  }

  lemma AskedNames(requests: seq<Request>, requested: string, domain: string, access: Access)
    requires domain != "" && Asks(requests, requested, access, domain)
    ensures Names(requests, requested, domain)
  {
    if Trim(requested) != domain {
      var q :| q in requests && IsCall(q) && SelectorOf(q) == domain;
      AgreesInFields(q, domain);
      assert ToolCall(q) && domain in NamedBy(q.params.value);
    }
  }

  lemma AskedAgree(requests: seq<Request>, requested: string, access: Access, selected: string, domain: string)
    requires Asks(requests, requested, access, selected) && (selected == "" || selected == domain)
    ensures forall q :: q in requests && ToolCall(q) ==> Agrees(q, domain)
    ensures access == Write <==> WritesToo(requests)
  {
    WritesInFields(requests);
    forall q | q in requests && ToolCall(q) ensures Agrees(q, domain) {
      assert IsCall(q);
      AgreesInFields(q, domain);
    }
  }

  lemma RoutedMayReach(
    policy: Policy, requests: seq<Request>, requested: string, domain: string, access: Access, selected: string)
    requires Asks(requests, requested, access, selected)
      && Allowed(selected, Grants(AllowedDomains(policy, access)), domain)
    ensures MayReach(policy, requests, requested, domain)
  {
    AllowedInFields(selected, AllowedDomains(policy, access), domain);
    AskedAgree(requests, requested, access, selected, domain);
    if selected != "" {
      AskedNames(requests, requested, domain, access);
    }
  }

  lemma MayReachAsks(policy: Policy, requests: seq<Request>, requested: string, domain: string)
    requires MayReach(policy, requests, requested, domain)
    ensures Asks(requests, requested, if WritesToo(requests) then Write else Read,
      if Names(requests, requested, domain) then domain else "")
  {
    var selected := if Names(requests, requested, domain) then domain else "";
    forall q | q in requests && IsCall(q)
      ensures ValidCall(q) && (SelectorOf(q) == "" || SelectorOf(q) == selected)
    {
      assert ToolCall(q);
      AgreesInFields(q, domain);
    }
    WritesInFields(requests);
    if selected != "" && Trim(requested) != selected {
      var q :| q in requests && ToolCall(q) && q.params.Some? && domain in NamedBy(q.params.value);
      AgreesInFields(q, domain);
      assert IsCall(q) && SelectorOf(q) == selected;
    }
  }

  /** A body reaches a domain exactly if its fields and the grants say so. */
  lemma RoutedExactly(policy: Policy, requests: seq<Request>, requested: string, domain: string)
    ensures Routed(policy, requests, requested, domain) <==> MayReach(policy, requests, requested, domain)
  {
    if Routed(policy, requests, requested, domain) {
      var access, selected :|
        Asks(requests, requested, access, selected)
        && Allowed(selected, Grants(AllowedDomains(policy, access)), domain);
      RoutedMayReach(policy, requests, requested, domain, access, selected);
    }
    if MayReach(policy, requests, requested, domain) {
      MayReachAsks(policy, requests, requested, domain);
      AllowedInFields(if Names(requests, requested, domain) then domain else "",
        AllowedDomains(policy, if WritesToo(requests) then Write else Read), domain);
    }
  }

  /** Whatever else a body holds: a tool call in it that writes reaches a domain granted for
      writing only. */
  lemma WritesNeedGrants(policy: Policy, requests: seq<Request>, requested: string, domain: string, q: Request)
    requires Routed(policy, requests, requested, domain) && q in requests && Trim(q.rpcMethod) == "tools/call"
    ensures q.params.Some? && Known(q.params.value.name) && NamedBy(q.params.value) <= {"", domain}
    ensures Trim(q.params.value.name) !in READ_ONLY_TOOLS ==> Granted(policy.writeDomains, domain)
  {
    RoutedExactly(policy, requests, requested, domain);
    assert ToolCall(q);
  }

  // ----- single calls -----

  /** A context call is sent on for a domain exactly if its tool is known, it names no other
      domain, the domain is granted for what the tool does, and it is named or the only one. */
  lemma ForwardsExactly(policy: Policy, call: Call, domain: string)
    ensures Forwards(policy, call, domain) <==>
      var grants := if Writes(call.name) then policy.writeDomains else policy.readDomains;
      && Known(call.name) && NamedBy(call) <= {"", domain} && Granted(grants, domain)
      && (domain in NamedBy(call) || OnlyGrant(grants, domain))
  {
    TrimFixed("");
    NamedSelect(call, domain);
    NamedSelect(call, "");
    if CallSelector(call).Some? {
      NamedSelect(call, CallSelector(call).value);
      AllowedInFields(CallSelector(call).value, policy.writeDomains, domain);
      AllowedInFields(CallSelector(call).value, policy.readDomains, domain);
    }
  }

  /** The harness carries out a call exactly if it is no export, names its domain beside the
      arguments and nowhere in them, and the domain is configured for what the tool does. */
  lemma HarnessAllowsExactly(m: Memory, call: Call)
    ensures HarnessAllows(m, call) <==>
      && Trim(call.name) != "export_memory_copy"
      && "domain_id" !in call.arguments && "firewall" !in call.arguments && Trim(call.domainId) != ""
      && (exists d :: d in m.readDomains && Trim(d.id) == Trim(call.domainId))
      && (Trim(call.name) !in READ_ONLY_TOOLS ==> exists v :: v in m.writeDomains && Trim(v) == Trim(call.domainId))
  {
    TrimTwice(call.domainId);
    FoundByID(m.readDomains, Trim(call.domainId));
  }

  // ----- the harness's configuration -----

  /** A domain that can be looked up and written by every tool. */
  predicate Usable(m: Memory, domain: string) {
    && domain != "" && MemoryDomainByID(m.readDomains, domain).Some?
    && exists v :: v in m.writeDomains && Trim(v) == domain
  }

  predicate WellFormed(m: Memory, name: string -> bool, url: string -> bool) {
    && Trim(m.actor) != ""
    && forall i :: 0 <= i < |m.readDomains| ==>
         var d := m.readDomains[i]; Trim(d.id) != "" && name(Trim(d.id)) && Trim(d.endpoint) != "" && url(d.endpoint)
  }

  lemma {:induction false} CountDistinct<T>(items: seq<T>)
    ensures |set x | x in items| <= |items|
    ensures |set x | x in items| == |items| <==> forall i, j :: 0 <= i < j < |items| ==> items[i] != items[j]
  {
    if items != [] {
      var n := |items| - 1;
      var front, last := items[..n], items[n];
      CountDistinct(front);
      assert (set x | x in items) == (set x | x in front) + {last};
      if last in front {
        assert (set x | x in items) == (set x | x in front);
      }
    }
  }

  lemma IdsCount(domains: seq<MemoryDomain>)
    ensures |Ids(domains)| == |domains| <==>
      forall i, j :: 0 <= i < j < |domains| ==> Trim(domains[i].id) != Trim(domains[j].id)
  {
    var texts := seq(|domains|, i requires 0 <= i < |domains| => Trim(domains[i].id));
    CountDistinct(texts);
    forall id ensures id in Ids(domains) <==> id in texts {
      if d :| d in domains && Trim(d.id) == id {
        var i :| 0 <= i < |domains| && domains[i] == d;
        assert texts[i] == id;
      }
    }
    assert Ids(domains) == set x | x in texts;
    assert forall i :: 0 <= i < |domains| ==> texts[i] == Trim(domains[i].id);
    if forall i, j :: 0 <= i < j < |domains| ==> Trim(domains[i].id) != Trim(domains[j].id) {
      assert forall i, j :: 0 <= i < j < |texts| ==> texts[i] != texts[j];
    } else {
      var i, j :| 0 <= i < j < |domains| && Trim(domains[i].id) == Trim(domains[j].id);
      assert texts[i] == texts[j];
    }
  }

  lemma GrantedIn(values: seq<string>, domain: string)
    ensures domain in Grants(values) <==> Granted(values, domain)
  {
  }

  lemma UsableInFields(m: Memory, domain: string)
    ensures Usable(m, domain) <==> domain in Ids(m.readDomains) && domain in Grants(m.writeDomains)
  {
    FoundByID(m.readDomains, domain);
    GrantedIn(m.writeDomains, domain);
  }

  predicate WritesChecked(m: Memory) {
    && Trim(m.defaultWriteDomain) in Grants(m.writeDomains)
    && Grants(m.writeDomains + [m.defaultWriteDomain]) <= Ids(m.readDomains)
  }

  lemma WritesUsable(m: Memory)
    ensures WritesChecked(m) <==>
      Usable(m, Trim(m.defaultWriteDomain)) && forall v :: v in m.writeDomains && Trim(v) != "" ==> Usable(m, Trim(v))
  {
    var all := m.writeDomains + [m.defaultWriteDomain];
    assert forall v :: v in all <==> v in m.writeDomains || v == m.defaultWriteDomain;
    UsableInFields(m, Trim(m.defaultWriteDomain));
    forall v | v in m.writeDomains && Trim(v) != ""
      ensures Usable(m, Trim(v)) <==> Trim(v) in Ids(m.readDomains)
      ensures Trim(v) in Grants(all)
    {
      UsableInFields(m, Trim(v));
      assert Trim(v) in Grants(m.writeDomains);
    }
  }

  predicate FlowsChecked(m: Memory) {
    forall f :: f in m.flows ==> Trim(f.source) in Ids(m.readDomains) && Trim(f.destination) in Grants(m.writeDomains)
  }

  predicate FlowsUsable(m: Memory) {
    forall f :: f in m.flows ==>
      MemoryDomainByID(m.readDomains, Trim(f.source)).Some? && Usable(m, Trim(f.destination))
  }

  lemma FlowsAgree(m: Memory)
    requires forall v :: v in m.writeDomains && Trim(v) != "" ==> Usable(m, Trim(v))
    ensures FlowsChecked(m) <==> FlowsUsable(m)
  {
    forall f | f in m.flows
      ensures Trim(f.source) in Ids(m.readDomains) && Trim(f.destination) in Grants(m.writeDomains) <==>
        MemoryDomainByID(m.readDomains, Trim(f.source)).Some? && Usable(m, Trim(f.destination))
    {
      FoundByID(m.readDomains, Trim(f.source));
      UsableInFields(m, Trim(f.destination));
      GrantedIn(m.writeDomains, Trim(f.destination));
    }
  }

  predicate DomainsChecked(m: Memory, name: string -> bool, url: string -> bool) {
    && !Blank(m.actor)
    && forall d :: d in m.readDomains ==> !Blank(d.id) && name(Trim(d.id)) && !Blank(d.endpoint) && url(d.endpoint)
  }

  lemma DomainsAgree(m: Memory, name: string -> bool, url: string -> bool)
    ensures DomainsChecked(m, name, url) <==> WellFormed(m, name, url)
  {
  }

  lemma Checks(m: Memory, name: string -> bool, url: string -> bool)
    requires m.readDomains != []
    ensures ValidMemory(m, name, url) <==>
      && DomainsChecked(m, name, url) && WritesChecked(m) && FlowsChecked(m)
      && forall i, j :: 0 <= i < j < |m.readDomains| ==> Trim(m.readDomains[i].id) != Trim(m.readDomains[j].id)
  {
    if WritesChecked(m) {
      var v :| v in m.writeDomains && Trim(v) == Trim(m.defaultWriteDomain);
    }
  }

  /** A configuration with a readable domain passes exactly if it is well formed, no two
      domains share an id, what is to be written, by default or by a flow, can be written, and
      what is to flow can be read. */
  lemma ValidExactly(m: Memory, name: string -> bool, url: string -> bool)
    requires m.readDomains != []
    ensures ValidMemory(m, name, url) <==>
      && WellFormed(m, name, url) && |Ids(m.readDomains)| == |m.readDomains|
      && Usable(m, Trim(m.defaultWriteDomain))
      && (forall v :: v in m.writeDomains && Trim(v) != "" ==> Usable(m, Trim(v)))
      && FlowsUsable(m)
  {
    Checks(m, name, url);
    IdsCount(m.readDomains);
    DomainsAgree(m, name, url);
    WritesUsable(m);
    if WritesChecked(m) {
      FlowsAgree(m);
    }
  }
}
