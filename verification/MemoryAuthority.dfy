/** Which memory domain a tool call may use: the gateway's choice for direct MCP traffic
    and for context calls, and the harness's own check of the calls it is sent. */
module MemoryAuthority {
  import opened Text

  // ----- the tools -----

  datatype Access = Read | Write

  const READ_ONLY_TOOLS := {
    "search_memory", "search_sources", "list_memory_domains", "load_entity_page", "load_timeline",
    "query_context_graph", "get_task", "list_tasks", "task_graph_projection", "project_executive_summary",
    "explain_executive_summary_item", "list_task_relations", "traverse_task_relations"
  }

  const WRITE_TOOLS := {
    "remember", "save_memory_candidate", "create_memory_domain", "remove_memory_domain", "refresh_compiled_page",
    "repair_memory_record", "submit_memory_correction", "mutate_context_graph", "create_task", "update_task",
    "complete_task", "cancel_task", "delete_task", "link_task_memory", "upsert_task_relation", "delete_task_relation"
  }

  /** The harness keeps a table of its own. */
  const HARNESS_READ_ONLY_TOOLS := {
    "search_memory", "search_sources", "list_memory_domains", "load_entity_page", "load_timeline",
    "query_context_graph", "get_task", "list_tasks", "task_graph_projection", "project_executive_summary",
    "explain_executive_summary_item", "list_task_relations", "traverse_task_relations"
  }

  const EXPORT_TOOL := "export_memory_copy"

  /** The access a tool needs; `None` for a tool the gateway does not know. */
  function MemoryToolAccessFor(name: string): Option<Access> {
    if Trim(name) in READ_ONLY_TOOLS then Some(Read)
    else if Trim(name) in WRITE_TOOLS then Some(Write)
    else None
  }

  // ----- selectors -----

  datatype Value = Text(text: string) | Other

  type Arguments = map<string, Value>

  /** A call as both routes decode it. */
  datatype Call = Call(name: string, domainId: string, arguments: Arguments)

  function SelectedDomain(first: string, second: string): Option<string> {
    if Blank(first) then Some(Trim(second))
    else if Blank(second) || Trim(second) == Trim(first) then Some(Trim(first))
    else None
  }

  function SelectorValue(arguments: Arguments, key: string): string {
    if key in arguments && arguments[key].Text? then Trim(arguments[key].text) else ""
  }

  function ArgumentSelector(arguments: Arguments): Option<string> {
    SelectedDomain(SelectorValue(arguments, "domain_id"), SelectorValue(arguments, "firewall"))
  }

  function CallSelector(call: Call): Option<string> {
    match ArgumentSelector(call.arguments)
    case None => None
    case Some(selector) => SelectedDomain(call.domainId, selector)
  }

  /** Where a call can name a domain. */
  function Selectors(call: Call): set<string> {
    {
      Trim(call.domainId),
      Trim(SelectorValue(call.arguments, "domain_id")),
      Trim(SelectorValue(call.arguments, "firewall"))
    }
  }

  /** `domain` is what the selectors agree on, and blank only when all are. */
  predicate AgreeOn(selectors: set<string>, domain: string) {
    && (forall s :: s in selectors ==> s == "" || s == domain)
    && (domain != "" ==> domain in selectors)
  }

  lemma SelectedAgrees(first: string, second: string, domain: string)
    ensures SelectedDomain(first, second) == Some(domain) <==> AgreeOn({Trim(first), Trim(second)}, domain)
  {
  }

  /** A call's selector is the one domain it names, wherever it names it. */
  lemma CallSelectorAgrees(call: Call, domain: string)
    ensures CallSelector(call) == Some(domain) <==> AgreeOn(Selectors(call), domain)
  {
    var a, b := SelectorValue(call.arguments, "domain_id"), SelectorValue(call.arguments, "firewall");
    match ArgumentSelector(call.arguments) {
      case None =>
        assert Trim(a) != "" && Trim(b) != "" && Trim(a) != Trim(b);
      case Some(selector) =>
        TrimTwice(a);
        TrimTwice(b);
        SelectedAgrees(call.domainId, selector, domain);
    }
  }

  // ----- one MCP body -----

  /** A JSON-RPC request; the parameters are missing when they are absent or cannot be
      decoded as a tool call. */
  datatype Request = Request(rpcMethod: string, params: Option<Call>)

  predicate IsCall(q: Request) {
    Trim(q.rpcMethod) == "tools/call"
  }

  predicate ValidCall(q: Request) {
    q.params.Some? && CallSelector(q.params.value).Some? && MemoryToolAccessFor(q.params.value.name).Some?
  }

  function AccessOf(q: Request): Access
    requires ValidCall(q)
  {
    MemoryToolAccessFor(q.params.value.name).value
  }

  function SelectorOf(q: Request): string
    requires ValidCall(q)
  {
    CallSelector(q.params.value).value
  }

  /** What a body asks for, whatever order its requests come in: every call in it is valid,
      the selectors agree on `domain`, and it writes when one of the calls does. */
  predicate Asks(requests: seq<Request>, requested: string, access: Access, domain: string) {
    && (forall q :: q in requests && IsCall(q) ==> ValidCall(q) && (SelectorOf(q) == "" || SelectorOf(q) == domain))
    && (Blank(requested) || Trim(requested) == domain)
    && (domain != "" ==> Trim(requested) == domain || exists q :: q in requests && IsCall(q) && SelectorOf(q) == domain)
    && (access == Write <==> exists q :: q in requests && IsCall(q) && AccessOf(q) == Write)
  }

  lemma AsksNothing(requested: string)
    ensures Asks([], requested, Read, Trim(requested))
  {
  }

  /** A body asks for one thing at most, and the order of its requests is of no matter. */
  lemma AsksOnce(requests: seq<Request>, others: seq<Request>, requested: string,
                 a: Access, d: string, a': Access, d': string)
    requires multiset(requests) == multiset(others)
    requires Asks(requests, requested, a, d) && Asks(others, requested, a', d')
    ensures a == a' && d == d'
  {
    assert forall q :: q in requests <==> q in multiset(requests);
    assert forall q :: q in others <==> q in multiset(others);
    assert forall q :: q in requests <==> q in others;
  }

  lemma AsksAnyOrder(requests: seq<Request>, others: seq<Request>, requested: string, access: Access, domain: string)
    requires multiset(requests) == multiset(others) && Asks(requests, requested, access, domain)
    ensures Asks(others, requested, access, domain)
  {
    assert forall q :: q in requests <==> q in multiset(requests);
    assert forall q :: q in others <==> q in multiset(others);
    assert forall q :: q in requests <==> q in others;
  }

  lemma SelectorTrimmed(q: Request)
    requires ValidCall(q)
    ensures Trim(SelectorOf(q)) == SelectorOf(q)
  {
    var call := q.params.value;
    CallSelectorAgrees(call, SelectorOf(q));
    TrimTwice(call.domainId);
    TrimTwice(SelectorValue(call.arguments, "domain_id"));
    TrimTwice(SelectorValue(call.arguments, "firewall"));
    TrimFixed("");
  }

  lemma AsksTrimmed(requests: seq<Request>, requested: string, access: Access, domain: string)
    requires Asks(requests, requested, access, domain)
    ensures Trim(domain) == domain
  {
    TrimTwice(requested);
    TrimFixed("");
    if domain != "" && Trim(requested) != domain {
      var q :| q in requests && IsCall(q) && SelectorOf(q) == domain;
      SelectorTrimmed(q);
    }
  }

  lemma AsksOther(before: seq<Request>, q: Request, requested: string, access: Access, domain: string)
    requires Asks(before, requested, access, domain) && !IsCall(q)
    ensures Asks(before + [q], requested, access, domain)
  {
    assert forall p :: p in before + [q] <==> p in before || p == q;
  }

  lemma AsksCall(before: seq<Request>, q: Request, requested: string, access: Access, domain: string, next: string)
    requires Asks(before, requested, access, domain) && IsCall(q) && ValidCall(q)
    requires SelectedDomain(domain, SelectorOf(q)) == Some(next)
    ensures Asks(before + [q], requested, if AccessOf(q) == Write then Write else access, next)
  {
    assert forall p :: p in before + [q] <==> p in before || p == q;
    SelectorTrimmed(q);
    AsksTrimmed(before, requested, access, domain);
  }

  ghost predicate Askable(requests: seq<Request>, requested: string) {
    exists access, domain :: Asks(requests, requested, access, domain)
  }

  /** A call that is not valid, or that disagrees with what came before, spoils the body. */
  lemma AsksSpoilt(requests: seq<Request>, i: nat, requested: string, access: Access, domain: string)
    requires i < |requests| && IsCall(requests[i])
    requires Asks(requests[..i], requested, access, domain)
    requires !ValidCall(requests[i]) || SelectedDomain(domain, SelectorOf(requests[i])).None?
    ensures !Askable(requests, requested)
  {
    var q := requests[i];
    assert q in requests;
    if ValidCall(q) {
      SelectorTrimmed(q);
      AsksTrimmed(requests[..i], requested, access, domain);
      assert forall p :: p in requests[..i] ==> p in requests;
    }
  }

  /** What is asked for after one more request. */
  function Taken(q: Request, access: Access, selected: string): Option<(Access, string)> {
    if !IsCall(q) then Some((access, selected))
    else if !ValidCall(q) then None
    else
      match SelectedDomain(selected, SelectorOf(q))
      case None => None
      case Some(next) => Some((if AccessOf(q) == Write then Write else access, next))
  }

  lemma TakenAsks(requests: seq<Request>, i: nat, requested: string, access: Access, selected: string)
    requires i < |requests| && Asks(requests[..i], requested, access, selected)
    ensures var r := Taken(requests[i], access, selected);
      if r.Some? then Asks(requests[..i + 1], requested, r.value.0, r.value.1) else !Askable(requests, requested)
  {
    var q := requests[i];
    assert requests[..i + 1] == requests[..i] + [q];
    if !IsCall(q) {
      AsksOther(requests[..i], q, requested, access, selected);
    } else if Taken(q, access, selected).None? {
      AsksSpoilt(requests, i, requested, access, selected);
    } else {
      AsksCall(requests[..i], q, requested, access, selected, SelectedDomain(selected, SelectorOf(q)).value);
    }
  }

  /** Going on by one request. */
  method TakeRequest(requests: seq<Request>, i: nat, requested: string, access: Access, selected: string)
    returns (r: Option<(Access, string)>)
    requires i < |requests| && Asks(requests[..i], requested, access, selected)
    ensures r.Some? ==> Asks(requests[..i + 1], requested, r.value.0, r.value.1)
    ensures r.None? ==> !Askable(requests, requested)
  {
    TakenAsks(requests, i, requested, access, selected);
    var q := requests[i];
    if !IsCall(q) {
      return Some((access, selected));
    }
    if !ValidCall(q) {
      return None;
    }
    var next := SelectedDomain(selected, SelectorOf(q));
    if next.None? {
      return None;
    }
    return Some((if AccessOf(q) == Write then Write else access, next.value));
  }

  /** The access and the domain of one MCP body, or nothing when it asks for no single one. */
  method MemoryAccessFromMCPBody(requests: seq<Request>, requested: string) returns (r: Option<(Access, string)>)
    ensures r.Some? ==> Asks(requests, requested, r.value.0, r.value.1)
    ensures r.None? ==> !Askable(requests, requested)
  {
    var access, selected := Read, Trim(requested);
    AsksNothing(requested);
    for i := 0 to |requests|
      invariant Asks(requests[..i], requested, access, selected)
    {
      var taken := TakeRequest(requests, i, requested, access, selected);
      if taken.None? {
        return None;
      }
      access, selected := taken.value.0, taken.value.1;
    }
    assert requests[..|requests|] == requests;
    r := Some((access, selected));
  }

  // ----- grants -----

  datatype Policy = Policy(readDomains: seq<string>, writeDomains: seq<string>)

  /** The domains a list of grants names. */
  function Grants(values: seq<string>): set<string> {
    (set v | v in values :: Trim(v)) - {""}
  }

  function AllowedDomains(policy: Policy, access: Access): seq<string> {
    if access == Write then policy.writeDomains else policy.readDomains
  }

  predicate MentionedBy(unique: seq<string>, at: seq<nat>, k: nat, value: string)
    requires |at| == |unique|
  {
    exists i :: 0 <= i < |unique| && at[i] <= k && unique[i] == value
  }

  /** Each grant once, without blanks, in the order of first mention: `at` are the places. */
  predicate FirstMentions(values: seq<string>, unique: seq<string>, at: seq<nat>) {
    && |at| == |unique|
    && (forall i :: 0 <= i < |unique| ==> at[i] < |values| && unique[i] == Trim(values[at[i]]) && unique[i] != "")
    && (forall i, j :: 0 <= i < j < |unique| ==> at[i] < at[j] && unique[i] != unique[j])
    && (forall k :: 0 <= k < |values| && Trim(values[k]) != "" ==> MentionedBy(unique, at, k, Trim(values[k])))
  }

  lemma AnotherMention(values: seq<string>, value: string, unique: seq<string>, at: seq<nat>)
    requires FirstMentions(values, unique, at) && (Trim(value) == "" || Trim(value) in unique)
    ensures FirstMentions(values + [value], unique, at)
  {
    var all := values + [value];
    forall k | 0 <= k < |all| && Trim(all[k]) != "" ensures MentionedBy(unique, at, k, Trim(all[k])) {
      if k < |values| {
        assert MentionedBy(unique, at, k, Trim(values[k]));
      } else {
        var i :| 0 <= i < |unique| && unique[i] == Trim(value);
      }
    }
  }

  lemma NewMention(values: seq<string>, value: string, unique: seq<string>, at: seq<nat>)
    requires FirstMentions(values, unique, at) && Trim(value) != "" && Trim(value) !in unique
    ensures FirstMentions(values + [value], unique + [Trim(value)], at + [|values|])
  {
    var all, more, places := values + [value], unique + [Trim(value)], at + [|values|];
    forall k | 0 <= k < |all| && Trim(all[k]) != "" ensures MentionedBy(more, places, k, Trim(all[k])) {
      if k < |values| {
        assert MentionedBy(unique, at, k, Trim(values[k]));
        var i :| 0 <= i < |unique| && at[i] <= k && unique[i] == Trim(values[k]);
        assert more[i] == unique[i] && places[i] == at[i];
      } else {
        assert more[|unique|] == Trim(value) && places[|unique|] == |values|;
      }
    }
  }

  method UniqueTrimmed(values: seq<string>) returns (unique: seq<string>)
    ensures exists at :: FirstMentions(values, unique, at)
  {
    unique := [];
    ghost var at: seq<nat> := [];
    var seen: set<string> := {};
    for n := 0 to |values|
      invariant FirstMentions(values[..n], unique, at) && (forall v :: v in seen <==> v in unique)
    {
      assert values[..n + 1] == values[..n] + [values[n]];
      var value := Trim(values[n]);
      if value == "" || value in seen {
        AnotherMention(values[..n], values[n], unique, at);
        continue;
      }
      NewMention(values[..n], values[n], unique, at);
      seen := seen + {value};
      unique, at := unique + [value], at + [n];
    }
    assert values[..|values|] == values;
  }

  lemma UniqueAreGrants(values: seq<string>, unique: seq<string>, at: seq<nat>)
    requires FirstMentions(values, unique, at)
    ensures (set d | d in unique) == Grants(values) && |Grants(values)| == |unique|
  {
    forall d | d in unique ensures d in Grants(values) {
      var i :| 0 <= i < |unique| && unique[i] == d;
      assert values[at[i]] in values;
    }
    forall d | d in Grants(values) ensures d in unique {
      var v :| v in values && Trim(v) == d;
      var k :| 0 <= k < |values| && values[k] == v;
      assert MentionedBy(unique, at, k, Trim(values[k]));
    }
    DistinctCount(unique);
  }

  /** `domain` is the one a caller gets: the domain it asks for, if that is granted, or the
      only one there is. */
  predicate Allowed(requested: string, grants: set<string>, domain: string) {
    domain in grants && if requested != "" then domain == requested else grants == {domain}
  }

  datatype Status = BadRequest | Forbidden

  lemma NoOnlyGrant(grants: set<string>)
    requires |grants| != 1
    ensures forall d :: grants != {d}
  {
    assert forall d: string :: |{d}| == 1;
  }

  /** The choice for a request as it comes: white space around it does not keep it from being
      granted, and it is handed on as it is. */
  predicate Selects(requested: string, grants: set<string>, domain: string) {
    if requested != "" then domain == requested && Trim(requested) in grants else grants == {domain}
  }

  lemma TrimmedSelects(requested: string, grants: set<string>, domain: string)
    requires Trim(requested) == requested
    ensures Selects(requested, grants, domain) <==> Allowed(requested, grants, domain)
  {
  }

  method SelectAllowedDomain(requested: string, allowed: seq<string>) returns (r: Result<string, Status>)
    ensures r.Ok? ==> Selects(requested, Grants(allowed), r.value)
    ensures r.Err? ==> forall d :: !Selects(requested, Grants(allowed), d)
    ensures r == Err(BadRequest) <==> requested == "" && |Grants(allowed)| > 1
  {
    var unique := UniqueTrimmed(allowed);
    ghost var at :| FirstMentions(allowed, unique, at);
    UniqueAreGrants(allowed, unique, at);
    if requested != "" {
      return if Trim(requested) in unique then Ok(requested) else Err(Forbidden);
    }
    if |unique| == 1 {
      assert (set d | d in unique) == {unique[0]};
      return Ok(unique[0]);
    }
    NoOnlyGrant(Grants(allowed));
    return Err(if |unique| == 0 then Forbidden else BadRequest);
  }

  lemma {:induction false} DistinctCount(unique: seq<string>)
    requires forall i, j :: 0 <= i < j < |unique| ==> unique[i] != unique[j]
    ensures |set d | d in unique| == |unique|
  {
    if unique != [] {
      var n := |unique| - 1;
      DistinctCount(unique[..n]);
      assert (set d | d in unique) == (set d | d in unique[..n]) + {unique[n]};
    }
  }

  method AuthorizeMemoryAccess(policy: Policy, access: Access, requested: string) returns (r: Result<string, Status>)
    ensures r.Ok? ==> Allowed(Trim(requested), Grants(AllowedDomains(policy, access)), r.value)
    ensures r.Err? ==> forall d :: !Allowed(Trim(requested), Grants(AllowedDomains(policy, access)), d)
  {
    TrimTwice(requested);
    r := SelectAllowedDomain(Trim(requested), AllowedDomains(policy, access));
    forall d
      ensures Selects(Trim(requested), Grants(AllowedDomains(policy, access)), d)
        <==> Allowed(Trim(requested), Grants(AllowedDomains(policy, access)), d)
    {
      TrimmedSelects(Trim(requested), Grants(AllowedDomains(policy, access)), d);
    }
  }

  /** An MCP body the gateway lets through reaches `domain`. */
  ghost predicate Routed(policy: Policy, requests: seq<Request>, requested: string, domain: string) {
    exists access, selected ::
      Asks(requests, requested, access, selected) && Allowed(selected, Grants(AllowedDomains(policy, access)), domain)
  }

  /** Beside the grants, the domain must be ready and have a route. */
  method MemoryMCPHandler(
    policy: Policy, requests: seq<Request>, requested: string, ready: string -> bool, routes: set<string>)
    returns (r: Option<string>)
    ensures r.Some? ==> Routed(policy, requests, requested, r.value) && ready(r.value) && r.value in routes
    ensures r.None? ==> forall d :: Routed(policy, requests, requested, d) ==> !ready(d) || d !in routes
  {
    var asked := MemoryAccessFromMCPBody(requests, requested);
    if asked.None? {
      return None;
    }
    var access, selected := asked.value.0, asked.value.1;
    forall a, s | Asks(requests, requested, a, s) ensures a == access && s == selected {
      AsksOnce(requests, requests, requested, a, s, access, selected);
    }
    AsksTrimmed(requests, requested, access, selected);
    var authorized := AuthorizeMemoryAccess(policy, access, selected);
    if authorized.Err? {
      return None;
    }
    if !ready(authorized.value) || authorized.value !in routes {
      return None;
    }
    r := Some(authorized.value);
  }

  /** What letting a body through means: each selector in it is blank or names the domain,
      which is writable if some call writes and readable otherwise. */
  lemma RoutedMeans(policy: Policy, requests: seq<Request>, requested: string, domain: string)
    requires Routed(policy, requests, requested, domain)
    ensures Blank(requested) || Trim(requested) == domain
    ensures forall q :: q in requests && IsCall(q) ==>
      ValidCall(q) && forall s :: s in Selectors(q.params.value) ==> s == "" || s == domain
    ensures (exists q :: q in requests && IsCall(q) && AccessOf(q) == Write) ==> domain in Grants(policy.writeDomains)
    ensures (forall q :: q in requests && IsCall(q) ==> AccessOf(q) == Read) ==> domain in Grants(policy.readDomains)
  {
    var access, selected :|
      Asks(requests, requested, access, selected) && Allowed(selected, Grants(AllowedDomains(policy, access)), domain);
    forall q | q in requests && IsCall(q)
      ensures ValidCall(q) && forall s :: s in Selectors(q.params.value) ==> s == "" || s == domain
    {
      CallSelectorAgrees(q.params.value, SelectorOf(q));
    }
  }

  /** The order of the requests in a batch does not matter. */
  lemma RoutedAnyOrder(policy: Policy, requests: seq<Request>, others: seq<Request>, requested: string, domain: string)
    requires multiset(requests) == multiset(others)
    ensures Routed(policy, requests, requested, domain) <==> Routed(policy, others, requested, domain)
  {
    forall access, selected
      ensures Asks(requests, requested, access, selected) <==> Asks(others, requested, access, selected)
    {
      if Asks(requests, requested, access, selected) {
        AsksAnyOrder(requests, others, requested, access, selected);
      }
      if Asks(others, requested, access, selected) {
        AsksAnyOrder(others, requests, requested, access, selected);
      }
    }
  }

  // ----- context calls through the gateway -----

  function WithoutDomainSelectors(arguments: Arguments): Arguments {
    map key | key in arguments && key != "domain_id" && key != "firewall" :: arguments[key]
  }

  /** A context call, other than an export, that the gateway sends on for `domain`. */
  predicate Forwards(policy: Policy, call: Call, domain: string) {
    && !Blank(call.name) && Trim(call.name) != EXPORT_TOOL
    && CallSelector(call).Some? && MemoryToolAccessFor(call.name).Some?
    && Allowed(CallSelector(call).value, Grants(AllowedDomains(policy, MemoryToolAccessFor(call.name).value)), domain)
  }

  lemma CallSelectorTrimmed(call: Call)
    requires CallSelector(call).Some?
    ensures Trim(CallSelector(call).value) == CallSelector(call).value
  {
    CallSelectorAgrees(call, CallSelector(call).value);
    TrimTwice(call.domainId);
    TrimTwice(SelectorValue(call.arguments, "domain_id"));
    TrimTwice(SelectorValue(call.arguments, "firewall"));
    TrimFixed("");
  }

  /** What the gateway does with a context call: an export passes when it names no domain,
      any other call is sent on for the one domain it may use, if that is ready. */
  method ContextAPIHandler(policy: Policy, call: Call, ready: string -> bool) returns (r: Option<Call>)
    ensures Trim(call.name) == EXPORT_TOOL ==>
      r == if Blank(call.domainId) && ArgumentSelector(call.arguments) == Some("") then Some(call) else None
    ensures Trim(call.name) != EXPORT_TOOL && r.Some? ==>
      && Forwards(policy, call, r.value.domainId) && ready(r.value.domainId)
      && r.value == Call(call.name, r.value.domainId, WithoutDomainSelectors(call.arguments))
    ensures Trim(call.name) != EXPORT_TOOL && r.None? ==> forall d :: Forwards(policy, call, d) ==> !ready(d)
  {
    if Blank(call.name) {
      return None;
    }
    var argumentDomain := ArgumentSelector(call.arguments);
    if argumentDomain.None? {
      return None;
    }
    if Trim(call.name) == EXPORT_TOOL {
      if !Blank(call.domainId) || argumentDomain.value != "" {
        return None;
      }
      return Some(call);
    }
    var requested := SelectedDomain(call.domainId, argumentDomain.value);
    if requested.None? {
      return None;
    }
    var access := MemoryToolAccessFor(call.name);
    if access.None? {
      return None;
    }
    CallSelectorTrimmed(call);
    var domain := AuthorizeMemoryAccess(policy, access.value, requested.value);
    if domain.Err? || !ready(domain.value) {
      return None;
    }
    r := Some(Call(call.name, domain.value, WithoutDomainSelectors(call.arguments)));
  }

  // ----- the harness's own policy -----

  datatype MemoryDomain = MemoryDomain(id: string, endpoint: string)

  datatype Flow = Flow(source: string, destination: string)

  datatype Memory = Memory(
    actor: string, readDomains: seq<MemoryDomain>, writeDomains: seq<string>,
    defaultWriteDomain: string, flows: seq<Flow>)

  function Ids(domains: seq<MemoryDomain>): set<string> {
    set d | d in domains :: Trim(d.id)
  }

  /** What the harness checks of its configuration; `name` and `url` are the formats of a
      domain id and an endpoint. Without readable domains it checks nothing. */
  predicate ValidMemory(m: Memory, name: string -> bool, url: string -> bool) {
    m.readDomains != [] ==>
      && !Blank(m.actor) && m.writeDomains != [] && !Blank(m.defaultWriteDomain)
      && (forall d :: d in m.readDomains ==> !Blank(d.id) && name(Trim(d.id)) && !Blank(d.endpoint) && url(d.endpoint))
      && (forall i, j :: 0 <= i < j < |m.readDomains| ==> Trim(m.readDomains[i].id) != Trim(m.readDomains[j].id))
      && Grants(m.writeDomains + [m.defaultWriteDomain]) <= Ids(m.readDomains)
      && Trim(m.defaultWriteDomain) in Grants(m.writeDomains)
      && (forall f :: f in m.flows ==>
        Trim(f.source) in Ids(m.readDomains) && Trim(f.destination) in Grants(m.writeDomains))
  }

  function MemoryDomainByID(domains: seq<MemoryDomain>, id: string): Option<MemoryDomain> {
    if domains == [] then None
    else if Trim(domains[0].id) == id then Some(domains[0])
    else MemoryDomainByID(domains[1..], id)
  }

  lemma {:induction false} FoundByID(domains: seq<MemoryDomain>, id: string)
    ensures MemoryDomainByID(domains, id).Some? <==> id in Ids(domains)
    ensures MemoryDomainByID(domains, id).Some? ==>
      MemoryDomainByID(domains, id).value in domains && Trim(MemoryDomainByID(domains, id).value.id) == id
  {
    if domains != [] {
      FoundByID(domains[1..], id);
      assert forall d :: d in domains <==> d == domains[0] || d in domains[1..];
    }
  }

  predicate HasMemoryDomainOverride(arguments: Arguments) {
    "domain_id" in arguments || "firewall" in arguments
  }

  predicate MemoryToolAllowedForDomain(m: Memory, name: string, domainId: string) {
    if Trim(name) in HARNESS_READ_ONLY_TOOLS then Trim(domainId) in Ids(m.readDomains)
    else Trim(domainId) in (set v | v in m.writeDomains :: Trim(v))
  }

  /** A domain call the harness carries out. */
  predicate HarnessAllows(m: Memory, call: Call) {
    && Trim(call.name) != EXPORT_TOOL && !HasMemoryDomainOverride(call.arguments)
    && !Blank(call.domainId) && MemoryDomainByID(m.readDomains, Trim(call.domainId)).Some?
    && MemoryToolAllowedForDomain(m, call.name, Trim(call.domainId))
  }

  // ----- the two agree -----

  /** The gateway's profile and the harness's configuration grant the same domains. */
  predicate SameGrants(policy: Policy, m: Memory) {
    && Grants(policy.readDomains) == Ids(m.readDomains) - {""}
    && Grants(policy.writeDomains) == Grants(m.writeDomains)
  }

  lemma SameTools()
    ensures READ_ONLY_TOOLS == HARNESS_READ_ONLY_TOOLS
  {
  }

  lemma GrantTrimmed(values: seq<string>, domain: string)
    requires domain in Grants(values)
    ensures domain != "" && Trim(domain) == domain && Trim(Trim(domain)) == domain
  {
    var v :| v in values && Trim(v) == domain;
    TrimTwice(v);
  }

  lemma WritableIsReadable(m: Memory, domain: string, name: string -> bool, url: string -> bool)
    requires ValidMemory(m, name, url) && m.readDomains != [] && domain in Grants(m.writeDomains)
    ensures domain in Ids(m.readDomains) && domain in (set v | v in m.writeDomains :: Trim(v))
  {
    var v :| v in m.writeDomains && Trim(v) == domain;
    assert v in m.writeDomains + [m.defaultWriteDomain];
    assert domain in Grants(m.writeDomains + [m.defaultWriteDomain]);
  }

  lemma ForwardedDomain(policy: Policy, call: Call, domain: string)
    requires Forwards(policy, call, domain)
    ensures domain != "" && Trim(domain) == domain && Trim(Trim(domain)) == domain
    ensures domain in Grants(if Trim(call.name) in READ_ONLY_TOOLS then policy.readDomains else policy.writeDomains)
  {
    GrantTrimmed(AllowedDomains(policy, MemoryToolAccessFor(call.name).value), domain);
  }

  lemma ForwardedToolAllowed(
    policy: Policy, m: Memory, call: Call, domain: string, name: string -> bool, url: string -> bool)
    requires Forwards(policy, call, domain) && SameGrants(policy, m) && ValidMemory(m, name, url) && m.readDomains != []
    ensures domain in Ids(m.readDomains) && MemoryToolAllowedForDomain(m, call.name, domain)
  {
    ForwardedDomain(policy, call, domain);
    SameTools();
    if Trim(call.name) !in READ_ONLY_TOOLS {
      WritableIsReadable(m, domain, name, url);
    }
  }

  /** The selectors go, and nothing else does. */
  lemma SelectorsGone(arguments: Arguments)
    ensures !HasMemoryDomainOverride(WithoutDomainSelectors(arguments))
    ensures forall key :: key in WithoutDomainSelectors(arguments) ==>
      key in arguments && WithoutDomainSelectors(arguments)[key] == arguments[key]
    ensures WithoutDomainSelectors(arguments) == arguments <==> !HasMemoryDomainOverride(arguments)
    ensures arguments.Keys == WithoutDomainSelectors(arguments).Keys + (arguments.Keys * {"domain_id", "firewall"})
  {
    assert WithoutDomainSelectors(arguments) == arguments ==> WithoutDomainSelectors(arguments).Keys == arguments.Keys;
  }

  /** A call the gateway sends on is carried out by a harness with the same grants and a
      valid configuration exactly when that configuration has a readable domain. */
  lemma HarnessAgrees(policy: Policy, m: Memory, call: Call, domain: string, name: string -> bool, url: string -> bool)
    requires Forwards(policy, call, domain) && SameGrants(policy, m) && ValidMemory(m, name, url)
    ensures HarnessAllows(m, Call(call.name, domain, WithoutDomainSelectors(call.arguments))) <==> m.readDomains != []
  {
    if m.readDomains == [] {
      assert !HarnessAllows(m, Call(call.name, domain, WithoutDomainSelectors(call.arguments)));
    } else {
      ForwardedToolAllowed(policy, m, call, domain, name, url);
      ForwardedDomain(policy, call, domain);
      FoundByID(m.readDomains, domain);
      SelectorsGone(call.arguments);
    }
  }

  /** The gateway's own configuration must grant some domain for reading, so a gateway that
      started with the harness's grants never sends on what the harness refuses. */
  lemma ConfiguredGatewayAgrees(
    policy: Policy, m: Memory, call: Call, domain: string, name: string -> bool, url: string -> bool)
    requires Forwards(policy, call, domain) && SameGrants(policy, m) && ValidMemory(m, name, url)
    requires Grants(policy.readDomains) != {}
    ensures HarnessAllows(m, Call(call.name, domain, WithoutDomainSelectors(call.arguments)))
  {
    HarnessAgrees(policy, m, call, domain, name, url);
    assert m.readDomains == [] ==> Ids(m.readDomains) == {};
  }

  /** What the harness would carry out, the gateway sends on, if it knows the tool. */
  lemma GatewayAgrees(policy: Policy, m: Memory, call: Call)
    requires HarnessAllows(m, call) && SameGrants(policy, m) && MemoryToolAccessFor(call.name).Some?
      && !Blank(call.name)
    ensures Forwards(policy, call, Trim(call.domainId))
  {
    SameTools();
    FoundByID(m.readDomains, Trim(call.domainId));
    TrimTwice(call.domainId);
    TrimFixed("");
  }

  /** Without a readable domain the harness's configuration passes unchecked, and a write
      the gateway allows is refused. */
  lemma LoneWriteDomain() returns (policy: Policy, m: Memory, call: Call)
    ensures SameGrants(policy, m) && forall name, url :: ValidMemory(m, name, url)
    ensures Forwards(policy, call, "work")
    ensures !HarnessAllows(m, Call(call.name, "work", WithoutDomainSelectors(call.arguments)))
  {
    policy := Policy([], ["work"]);
    m := Memory("", [], ["work"], "", []);
    call := Call("remember", "work", map[]);
    TrimFixed("work");
    TrimFixed("remember");
    TrimFixed("");
    assert "work" in policy.writeDomains && "work" in m.writeDomains;
    assert "remember" in WRITE_TOOLS;
    assert "remember" !in READ_ONLY_TOOLS;
    FoundByID([], "work");
  }
}
