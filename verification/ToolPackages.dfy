/** Tool package inheritance: overlaying a package on the one it extends, and loading
    a chain of `extends` with its cycle check. */
module ToolPackages {
  import opened Text
  import opened KeyedMerge

  // ----- packages; `body` stands for the fields the merge carries along -----

  datatype Command = Command(name: string, body: string)
  datatype Server = Server(name: string, body: string)
  datatype Domain = Domain(id: string, body: string)
  datatype Flow = Flow(from: string, to: string)
  datatype Preset = Preset(id: string, body: string)
  datatype Validation = Validation(id: string, body: string)

  datatype LocalExec = LocalExec(
    enabled: bool, defaultTimeout: string, defaultMaxOutputBytes: int, commands: seq<Command>)
  datatype MCP = MCP(enabled: bool, servers: seq<Server>)
  datatype Memory = Memory(
    actor: string, readDomains: seq<Domain>, writeDomains: seq<string>, defaultWriteDomain: string,
    allowedSensitivities: seq<string>, allowedFlows: seq<Flow>)

  datatype Tools = Tools(
    name: string, version: string, base: string, localExec: LocalExec, mcp: MCP, memory: Memory,
    nodePresets: seq<Preset>, validations: seq<Validation>)

  const EMPTY: Tools := Tools(
    "", "", "", LocalExec(false, "", 0, []), MCP(false, []), Memory("", [], [], "", [], []), [], [])

  function CommandKey(c: Command): string { Trim(c.name) }
  function ServerKey(s: Server): string { Trim(s.name) }
  function DomainKey(d: Domain): string { Trim(d.id) }
  function PresetKey(p: Preset): string { Trim(p.id) }
  function ValidationKey(v: Validation): string { Trim(v.id) }
  function TextKey(s: string): string { Trim(s) }

  function MemoryFlowKey(f: Flow): string {
    if Trim(f.from) == "" || Trim(f.to) == "" then "" else Trim(f.from) + "->" + Trim(f.to)
  }

  /** The delta's text unless it is blank. */
  function Override(base: string, delta: string): string {
    if Blank(delta) then base else delta
  }

  function MergeLocalExec(base: LocalExec, delta: LocalExec): LocalExec {
    LocalExec(
      base.enabled || delta.enabled,
      Override(base.defaultTimeout, delta.defaultTimeout),
      if delta.defaultMaxOutputBytes > 0 then delta.defaultMaxOutputBytes else base.defaultMaxOutputBytes,
      Merge(base.commands, delta.commands, CommandKey))
  }

  function MergeMCP(base: MCP, delta: MCP): MCP {
    MCP(base.enabled || delta.enabled, Merge(base.servers, delta.servers, ServerKey))
  }

  function MergeMemory(base: Memory, delta: Memory): Memory {
    Memory(
      Override(base.actor, delta.actor),
      Merge(base.readDomains, delta.readDomains, DomainKey),
      AppendUnique(base.writeDomains, delta.writeDomains, TextKey),
      Override(base.defaultWriteDomain, delta.defaultWriteDomain),
      AppendUnique(base.allowedSensitivities, delta.allowedSensitivities, TextKey),
      AppendUnique(base.allowedFlows, delta.allowedFlows, MemoryFlowKey))
  }

  function MergeInheritedTools(base: Tools, delta: Tools): Tools {
    Tools(
      Override(base.name, delta.name), delta.version, delta.base,
      MergeLocalExec(base.localExec, delta.localExec),
      MergeMCP(base.mcp, delta.mcp),
      MergeMemory(base.memory, delta.memory),
      Merge(base.nodePresets, delta.nodePresets, PresetKey),
      Merge(base.validations, delta.validations, ValidationKey))
  }

  /** Overlaying packages is associative. */
  lemma MergeToolsAssociative(a: Tools, b: Tools, c: Tools)
    ensures MergeInheritedTools(MergeInheritedTools(a, b), c) == MergeInheritedTools(a, MergeInheritedTools(b, c))
  {
    MergeAssociative(a.localExec.commands, b.localExec.commands, c.localExec.commands, CommandKey);
    MergeAssociative(a.mcp.servers, b.mcp.servers, c.mcp.servers, ServerKey);
    MergeAssociative(a.memory.readDomains, b.memory.readDomains, c.memory.readDomains, DomainKey);
    AppendUniqueAssociative(a.memory.writeDomains, b.memory.writeDomains, c.memory.writeDomains, TextKey);
    AppendUniqueAssociative(
      a.memory.allowedSensitivities, b.memory.allowedSensitivities, c.memory.allowedSensitivities, TextKey);
    AppendUniqueAssociative(a.memory.allowedFlows, b.memory.allowedFlows, c.memory.allowedFlows, MemoryFlowKey);
    MergeAssociative(a.nodePresets, b.nodePresets, c.nodePresets, PresetKey);
    MergeAssociative(a.validations, b.validations, c.validations, ValidationKey);
  }

  /** Packages from the root to the most derived, overlaid one after another. */
  function Flattened(packages: seq<Tools>): Tools
    requires packages != []
  {
    var n := |packages| - 1;
    if n == 0 then packages[0] else MergeInheritedTools(Flattened(packages[..n]), packages[n])
  }

  /** A way of grouping the overlays of a chain. */
  datatype Grouping = One(package: Tools) | Group(base: Grouping, delta: Grouping)

  function Chain(g: Grouping): (packages: seq<Tools>)
    ensures packages != []
  {
    match g
    case One(package) => [package]
    case Group(base, delta) => Chain(base) + Chain(delta)
  }

  function Evaluate(g: Grouping): Tools {
    match g
    case One(package) => package
    case Group(base, delta) => MergeInheritedTools(Evaluate(base), Evaluate(delta))
  }

  lemma {:induction false} FlattenedConcat(a: seq<Tools>, b: seq<Tools>)
    requires a != [] && b != []
    ensures Flattened(a + b) == MergeInheritedTools(Flattened(a), Flattened(b))
    decreases |b|
  {
    var n := |b| - 1;
    assert (a + b)[..|a + b| - 1] == a + b[..n];
    if n == 0 {
      assert a + b[..n] == a;
    } else {
      FlattenedConcat(a, b[..n]);
      MergeToolsAssociative(Flattened(a), Flattened(b[..n]), b[n]);
    }
  }

  /** A chain of packages can be flattened in any grouping. */
  lemma {:induction false} AnyGrouping(g: Grouping)
    ensures Evaluate(g) == Flattened(Chain(g))
  {
    match g
    case One(_) =>
    case Group(base, delta) =>
      AnyGrouping(base);
      AnyGrouping(delta);
      FlattenedConcat(Chain(base), Chain(delta));
  }

  // ----- loading -----

  datatype File = Parsed(tools: Tools) | Broken

  /** The files by absolute path; absent means not there. `locate` resolves an
      `extends` entry against the file that has it, and `withPackages` merges the MCP
      packages that lie beside a file into its tools, if they can be read. */
  datatype World = World(
    files: map<string, File>, identity: string -> string, locate: (string, string) -> string,
    valid: Tools -> bool, defaultPath: string,
    withPackages: (string, Tools) -> Option<Tools>)

  datatype LoadError = Cycle | Undecodable | Invalid | BadPackage

  function Effective(w: World, path: string): string {
    if Blank(path) then w.defaultPath else path
  }

  /** The package a path decodes to; the default file may be missing unless asked for. */
  function Decode(w: World, path: string, explicit: bool): Option<Tools> {
    var id := w.identity(path);
    if id in w.files then (if w.files[id].Parsed? then Some(w.files[id].tools) else None)
    else if !explicit && path == w.defaultPath then Some(EMPTY)
    else None
  }

  function Load(w: World, path: string, explicit: bool, visited: set<string>): Result<Tools, LoadError>
    decreases |w.files.Keys - visited|
  {
    var p := Effective(w, path);
    var id := w.identity(p);
    if id in visited then Err(Cycle)
    else
      match Decode(w, p, explicit)
      case None => Err(Undecodable)
      case Some(cfg) =>
        if Blank(cfg.base) then (if w.valid(cfg) then Ok(cfg) else Err(Invalid))
        else
          OneFewer(w, id, visited);
          match Load(w, w.locate(p, cfg.base), true, visited + {id})
          case Err(e) => Err(e)
          case Ok(base) =>
            var merged := MergeInheritedTools(base, cfg);
            if w.valid(merged) then Ok(merged) else Err(Invalid)
  }

  /** Each level of a chain uses up one file. */
  lemma OneFewer(w: World, id: string, visited: set<string>)
    requires id in w.files && id !in visited
    ensures |w.files.Keys - (visited + {id})| < |w.files.Keys - visited|
  {
    assert w.files.Keys - (visited + {id}) == (w.files.Keys - visited) - {id};
  }

  class Visited {
    var ids: set<string>

    constructor ()
      ensures ids == {}
    {
      ids := {};
    }
  }

  function Checked(w: World, cfg: Tools): Result<Tools, LoadError> {
    if w.valid(cfg) then Ok(cfg) else Err(Invalid)
  }

  /** The tools of a file and what it extends, before anything is added or checked. */
  function Inherited(w: World, path: string, explicit: bool, visited: set<string>): Result<Tools, LoadError> {
    var p := Effective(w, path);
    if w.identity(p) in visited then Err(Cycle)
    else
      match Decode(w, p, explicit)
      case None => Err(Undecodable)
      case Some(cfg) =>
        if Blank(cfg.base) then Ok(cfg)
        else
          match Load(w, w.locate(p, cfg.base), true, visited + {w.identity(p)})
          case Err(e) => Err(e)
          case Ok(base) => Ok(MergeInheritedTools(base, cfg))
  }

  function Finished(w: World, p: string, cfg: Tools, packages: bool): Result<Tools, LoadError> {
    if !packages then Checked(w, cfg)
    else
      match w.withPackages(p, cfg)
      case None => Err(BadPackage)
      case Some(all) => Checked(w, all)
  }

  /** Adds the packages, if they are asked for, and checks the result. */
  method Finish(w: World, p: string, tools: Tools, mergePackages: bool) returns (r: Result<Tools, LoadError>)
    ensures r == Finished(w, p, tools, mergePackages)
  {
    var cfg := tools;
    if mergePackages {
      var all := w.withPackages(p, cfg);
      if all.None? {
        return Err(BadPackage);
      }
      cfg := all.value;
    }
    r := if w.valid(cfg) then Ok(cfg) else Err(Invalid);
  }

  /** Loading a file with the packages beside it, or without. */
  function LoadTop(w: World, path: string, explicit: bool, packages: bool, visited: set<string>)
    : Result<Tools, LoadError>
  {
    match Inherited(w, path, explicit, visited)
    case Err(e) => Err(e)
    case Ok(cfg) => Finished(w, Effective(w, path), cfg, packages)
  }

  /** Packages are added after inheritance, to the file asked for only: they change neither
      what is inherited nor whether a cycle is found. */
  lemma PackagesLast(w: World, path: string, explicit: bool, visited: set<string>)
    ensures LoadTop(w, path, explicit, false, visited) == Load(w, path, explicit, visited)
    ensures forall packages :: LoadTop(w, path, explicit, packages, visited) == Err(Cycle) <==>
      Load(w, path, explicit, visited) == Err(Cycle)
  {
  }

  /** Marks its file visited while it loads the base, and unmarks it on every way out. */
  method LoadToolsWithVisited(w: World, path: string, explicit: bool, mergePackages: bool, visited: Visited)
    returns (r: Result<Tools, LoadError>)
    modifies visited
    ensures r == LoadTop(w, path, explicit, mergePackages, old(visited.ids)) && visited.ids == old(visited.ids)
    decreases |w.files.Keys - visited.ids|
  {
    var p := if Trim(path) == "" then w.defaultPath else path;
    var id := w.identity(p);
    if id in visited.ids {
      return Err(Cycle);
    }
    ghost var before := visited.ids;
    visited.ids := visited.ids + {id};
    var decoded := Decode(w, p, explicit);
    if decoded.None? {
      visited.ids := visited.ids - {id};
      return Err(Undecodable);
    }
    var cfg := decoded.value;
    if Trim(cfg.base) != "" {
      OneFewer(w, id, before);
      PackagesLast(w, w.locate(p, cfg.base), true, visited.ids);
      var base := LoadToolsWithVisited(w, w.locate(p, cfg.base), true, false, visited);
      if base.Err? {
        visited.ids := visited.ids - {id};
        return base;
      }
      cfg := MergeInheritedTools(base.value, cfg);
    }
    visited.ids := visited.ids - {id};
    r := Finish(w, p, cfg, mergePackages);
  }

  // ----- what loading computes -----

  /** A path whose file decodes and extends another. */
  predicate Extends(w: World, p: string, explicit: bool) {
    Decode(w, p, explicit).Some? && !Blank(Decode(w, p, explicit).value.base)
  }

  function BaseOf(w: World, p: string, explicit: bool): string
    requires Extends(w, p, explicit)
  {
    Effective(w, w.locate(p, Decode(w, p, explicit).value.base))
  }

  /** The paths met by following `extends`, as far as the list goes. */
  predicate Follows(w: World, ps: seq<string>, explicit: bool) {
    && ps != []
    && (|ps| == 1
        || (Extends(w, ps[0], explicit) && ps[1] == BaseOf(w, ps[0], explicit) && Follows(w, ps[1..], true)))
  }

  function Identities(w: World, ps: seq<string>): set<string> {
    set i | 0 <= i < |ps| :: w.identity(ps[i])
  }

  predicate DistinctFiles(w: World, ps: seq<string>) {
    forall i, j :: 0 <= i < j < |ps| ==> w.identity(ps[i]) != w.identity(ps[j])
  }

  /** The fold of the merge along a chain that ends in a package without a base; the
      result must be valid at every level. */
  function Fold(w: World, ps: seq<string>, explicit: bool): Result<Tools, LoadError>
    requires ps != [] && forall i :: 0 <= i < |ps| ==> Decode(w, ps[i], explicit || i > 0).Some?
  {
    var cfg := Decode(w, ps[0], explicit).value;
    if |ps| == 1 then (if w.valid(cfg) then Ok(cfg) else Err(Invalid))
    else
      match Fold(w, ps[1..], true)
      case Err(e) => Err(e)
      case Ok(base) =>
        var merged := MergeInheritedTools(base, cfg);
        if w.valid(merged) then Ok(merged) else Err(Invalid)
  }

  /** The packages of a chain from its root to its start. */
  function Packages(w: World, ps: seq<string>, explicit: bool): seq<Tools>
    requires forall i :: 0 <= i < |ps| ==> Decode(w, ps[i], explicit || i > 0).Some?
  {
    if ps == [] then [] else Packages(w, ps[1..], true) + [Decode(w, ps[0], explicit).value]
  }

  lemma {:induction false} FoldIsFlattened(w: World, ps: seq<string>, explicit: bool)
    requires ps != [] && forall i :: 0 <= i < |ps| ==> Decode(w, ps[i], explicit || i > 0).Some?
    requires Fold(w, ps, explicit).Ok?
    ensures Packages(w, ps, explicit) != [] && Fold(w, ps, explicit).value == Flattened(Packages(w, ps, explicit))
    decreases |ps|
  {
    if |ps| == 1 {
      assert Packages(w, ps[1..], true) == [];
    } else {
      FoldIsFlattened(w, ps[1..], true);
      var front, cfg := Packages(w, ps[1..], true), Decode(w, ps[0], explicit).value;
      assert (front + [cfg])[..|front|] == front;
    }
  }

  /** How a chain ends. */
  datatype End = Root | Revisit | Unreadable

  function EndOf(w: World, ps: seq<string>, explicit: bool, visited: set<string>): End
    requires ps != []
  {
    var n := |ps| - 1;
    if w.identity(ps[n]) in visited + Identities(w, ps[..n]) then Revisit
    else if Decode(w, ps[n], explicit || n > 0).None? then Unreadable
    else Root
  }

  lemma IdentitiesCons(w: World, p: string, front: seq<string>)
    ensures Identities(w, [p] + front) == {w.identity(p)} + Identities(w, front)
  {
    var all := [p] + front;
    assert all[0] == p && forall i :: 0 <= i < |front| ==> all[i + 1] == front[i];
    forall x | x in {w.identity(p)} + Identities(w, front) ensures x in Identities(w, all) {
      if x != w.identity(p) {
        var i :| 0 <= i < |front| && x == w.identity(front[i]);
        assert x == w.identity(all[i + 1]);
      }
    }
  }

  lemma DistinctCons(w: World, p: string, front: seq<string>)
    requires DistinctFiles(w, front) && w.identity(p) !in Identities(w, front)
    ensures DistinctFiles(w, [p] + front)
  {
    assert forall i :: 0 <= i < |front| ==> w.identity(front[i]) in Identities(w, front);
  }

  lemma EndOfCons(w: World, p: string, rest: seq<string>, explicit: bool, visited: set<string>)
    requires rest != []
    ensures EndOf(w, [p] + rest, explicit, visited) == EndOf(w, rest, true, visited + {w.identity(p)})
  {
    var all, front := [p] + rest, rest[..|rest| - 1];
    assert all[..|rest|] == [p] + front && all[|rest|] == rest[|rest| - 1];
    IdentitiesCons(w, p, front);
    assert visited + Identities(w, [p] + front) == visited + {w.identity(p)} + Identities(w, front);
  }

  predicate AllDecode(w: World, ps: seq<string>, explicit: bool) {
    forall i :: 0 <= i < |ps| ==> Decode(w, ps[i], explicit || i > 0).Some?
  }

  /** `ps` is the chain from `path`, through distinct unvisited files, and says what loading it gives. */
  predicate Explains(w: World, path: string, explicit: bool, visited: set<string>, ps: seq<string>) {
    && ps != [] && Follows(w, ps, explicit) && ps[0] == Effective(w, path)
    && DistinctFiles(w, ps[..|ps| - 1]) && Identities(w, ps[..|ps| - 1]) !! visited
    && match EndOf(w, ps, explicit, visited)
       case Revisit => Load(w, path, explicit, visited) == Err(Cycle)
       case Unreadable => Load(w, path, explicit, visited) == Err(Undecodable)
       case Root =>
         && !Extends(w, ps[|ps| - 1], explicit || |ps| > 1)
         && AllDecode(w, ps, explicit)
         && Load(w, path, explicit, visited) == Fold(w, ps, explicit)
  }

  lemma ExplainsCons(w: World, path: string, explicit: bool, visited: set<string>, rest: seq<string>)
    requires var p := Effective(w, path);
             && w.identity(p) !in visited && Extends(w, p, explicit)
             && Explains(w, w.locate(p, Decode(w, p, explicit).value.base), true, visited + {w.identity(p)}, rest)
    ensures Explains(w, path, explicit, visited, [Effective(w, path)] + rest)
  {
    var p := Effective(w, path);
    var ps, front := [p] + rest, rest[..|rest| - 1];
    assert ps[1..] == rest && ps[..|ps| - 1] == [p] + front;
    IdentitiesCons(w, p, front);
    DistinctCons(w, p, front);
    EndOfCons(w, p, rest, explicit, visited);
  }

  /** A chain that ends where it starts. */
  lemma ExplainsEnd(w: World, path: string, explicit: bool, visited: set<string>)
    requires var p := Effective(w, path); w.identity(p) in visited || !Extends(w, p, explicit)
    ensures Explains(w, path, explicit, visited, [Effective(w, path)])
  {
    var ps := [Effective(w, path)];
    assert ps[..|ps| - 1] == [] && Identities(w, []) == {};
    assert visited + {} == visited;
    assert Decode(w, ps[0], explicit).Some? ==> AllDecode(w, ps, explicit);
  }

  /** Loading follows the chain through distinct files to its end: a revisited file is
      reported as a cycle, an undecodable one as such, and otherwise the result is the
      fold of the merge along the chain. */
  lemma {:induction false} LoadFollowsChain(w: World, path: string, explicit: bool, visited: set<string>)
    returns (ps: seq<string>)
    ensures Explains(w, path, explicit, visited, ps)
    decreases |w.files.Keys - visited|
  {
    var p := Effective(w, path);
    var id := w.identity(p);
    if id !in visited && Extends(w, p, explicit) {
      OneFewer(w, id, visited);
      var rest := LoadFollowsChain(w, w.locate(p, Decode(w, p, explicit).value.base), true, visited + {id});
      ExplainsCons(w, path, explicit, visited, rest);
      ps := [p] + rest;
    } else {
      ps := [p];
      ExplainsEnd(w, path, explicit, visited);
    }
  }

  /** The chain from a path is determined, as far as it goes. */
  lemma {:induction false} ChainUnique(w: World, ps: seq<string>, qs: seq<string>, explicit: bool)
    requires Follows(w, ps, explicit) && Follows(w, qs, explicit) && ps[0] == qs[0] && |ps| <= |qs|
    ensures ps == qs[..|ps|]
    decreases |ps|
  {
    if |ps| > 1 {
      ChainUnique(w, ps[1..], qs[1..], true);
      assert ps == [ps[0]] + ps[1..] && qs[..|ps|] == [qs[0]] + qs[1..][..|ps| - 1];
    }
  }

  lemma {:induction false} Extended(w: World, qs: seq<string>, explicit: bool, i: nat)
    requires Follows(w, qs, explicit) && i < |qs| - 1
    ensures Extends(w, qs[i], explicit || i > 0)
    decreases i
  {
    if i > 0 {
      Extended(w, qs[1..], true, i - 1);
    }
  }

  /** A cycle is reported exactly when following `extends` meets a file again. */
  lemma CycleReported(w: World, path: string, explicit: bool)
    ensures Load(w, path, explicit, {}) == Err(Cycle) <==>
      exists ps :: Follows(w, ps, explicit) && ps[0] == Effective(w, path) && !DistinctFiles(w, ps)
  {
    var ps := LoadFollowsChain(w, path, explicit, {});
    if EndOf(w, ps, explicit, {}).Revisit? {
      var i :| 0 <= i < |ps| - 1 && w.identity(ps[|ps| - 1]) == w.identity(ps[..|ps| - 1][i]);
      assert !DistinctFiles(w, ps);
    } else {
      forall qs | Follows(w, qs, explicit) && qs[0] == ps[0] ensures DistinctFiles(w, qs) {
        LastNew(w, ps, explicit);
        if |qs| <= |ps| {
          ChainUnique(w, qs, ps, explicit);
        } else {
          ChainUnique(w, ps, qs, explicit);
          Extended(w, qs, explicit, |ps| - 1);
        }
      }
      FoldNeverCycles(w, ps, explicit);
    }
  }

  lemma LastNew(w: World, ps: seq<string>, explicit: bool)
    requires ps != [] && DistinctFiles(w, ps[..|ps| - 1]) && !EndOf(w, ps, explicit, {}).Revisit?
    ensures DistinctFiles(w, ps)
  {
    var front := ps[..|ps| - 1];
    assert forall i :: 0 <= i < |front| ==> front[i] == ps[i] && w.identity(front[i]) in Identities(w, front);
  }

  lemma {:induction false} FoldNeverCycles(w: World, ps: seq<string>, explicit: bool)
    ensures ps != [] && AllDecode(w, ps, explicit) ==> Fold(w, ps, explicit) != Err(Cycle)
    decreases |ps|
  {
    if |ps| > 1 {
      FoldNeverCycles(w, ps[1..], true);
    }
  }
}
