/** The init containers that gate a service's runtime container, and the volumes
    and dependencies they wait for. */
module Pods {
  import opened RuleText
  import opened Strs

  datatype VolumeType = Native | Bind | OtherType

  datatype Mounted = Mounted(kind: VolumeType, source: string)

  datatype Condition = Started | Healthy | Unknown(text: string)

  /** A link is given by its parts between colons. */
  datatype Service = Service(name: string, volumes: seq<Mounted>, dependsOn: map<string, Condition>,
                             links: seq<seq<string>>)

  datatype Dependency = Dependency(service: string, condition: Condition)

  datatype Container =
    | CopyVcp
    | InitializeVolumes(sources: seq<string>)
    | AwaitInitialized(services: seq<string>)
    | AwaitDependsOn(deps: seq<Dependency>)
    | AwaitSync(bindVolumes: seq<string>)

  /* ----- What a service mounts ----- */

  predicate MountsNative(svc: Service, source: string) {
    Mounted(Native, source) in svc.volumes
  }

  /** A named volume that is declared as a bind volume counts as one. */
  function NativeSources(volumes: seq<Mounted>, named: map<string, string>): seq<string> {
    if volumes == [] then []
    else
      var v := volumes[|volumes| - 1];
      NativeSources(volumes[..|volumes| - 1], named) + (if v.kind.Native? && v.source !in named then [v.source] else [])
  }

  function BindSources(volumes: seq<Mounted>, named: map<string, string>): seq<string> {
    if volumes == [] then []
    else
      var v := volumes[|volumes| - 1];
      BindSources(volumes[..|volumes| - 1], named) +
      (if v.kind.Bind? then [v.source] else if v.kind.Native? && v.source in named then [named[v.source]] else [])
  }

  lemma {:induction false} NativeSourcesExactly(volumes: seq<Mounted>, named: map<string, string>, source: string)
    ensures source in NativeSources(volumes, named) <==> Mounted(Native, source) in volumes && source !in named
  {
    if volumes != [] {
      NativeSourcesExactly(volumes[..|volumes| - 1], named, source);
      assert volumes == volumes[..|volumes| - 1] + [volumes[|volumes| - 1]];
    }
  }

  lemma {:induction false} BindSourcesExactly(volumes: seq<Mounted>, named: map<string, string>, source: string)
    ensures source in BindSources(volumes, named) <==>
      (Mounted(Bind, source) in volumes
       || exists name :: name in named && named[name] == source && Mounted(Native, name) in volumes)
  {
    if volumes != [] {
      var before, last := volumes[..|volumes| - 1], volumes[|volumes| - 1];
      BindSourcesExactly(before, named, source);
      assert volumes == before + [last];
      assert last.kind.Native? ==> last == Mounted(Native, last.source);
    }
  }

  /* ----- The builder ----- */

  function At(m: map<string, seq<string>>, source: string): seq<string> {
    if source in m then m[source] else []
  }

  /** Some service among the first `k` is called `name` and mounts the volume. */
  predicate IsUser(services: seq<Service>, k: nat, source: string, name: string)
    requires k <= |services|
  {
    exists i | 0 <= i < k :: services[i].name == name && MountsNative(services[i], source)
  }

  class PodBuilder {
    var volumeToServices: map<string, seq<string>>
    const services: seq<Service>
    const namedBindVolumes: map<string, string>

    /** For each volume, the services that mount it. */
    ghost predicate Valid()
      reads this
    {
      forall source, name :: name in At(volumeToServices, source) <==> IsUser(services, |services|, source, name)
    }

    constructor (services: seq<Service>, namedBindVolumes: map<string, string>)
      ensures Valid() && this.services == services && this.namedBindVolumes == namedBindVolumes
    {
      this.services := services;
      this.namedBindVolumes := namedBindVolumes;
      volumeToServices := map[];
      new;
      for k := 0 to |services|
        invariant forall source, name :: name in At(volumeToServices, source) <==> IsUser(services, k, source, name)
      {
        ghost var was := volumeToServices;
        AddService(services[k]);
        forall source, name
          ensures name in At(volumeToServices, source) <==> IsUser(services, k + 1, source, name)
        {
          assert name in At(was, source) <==> IsUser(services, k, source, name);
        }
      }
    }

    method AddService(svc: Service)
      modifies this`volumeToServices
      ensures forall source, name ::
        name in At(volumeToServices, source) <==>
        name in At(old(volumeToServices), source) || (name == svc.name && MountsNative(svc, source))
    {
      for j := 0 to |svc.volumes|
        invariant forall source, name ::
          name in At(volumeToServices, source) <==>
          name in At(old(volumeToServices), source) || (name == svc.name && Mounted(Native, source) in svc.volumes[..j])
      {
        var v := svc.volumes[j];
        ghost var was := volumeToServices;
        if v.kind.Native? {
          volumeToServices := volumeToServices[v.source := At(volumeToServices, v.source) + [svc.name]];
        }
        forall source, name
          ensures name in At(volumeToServices, source) <==>
            name in At(was, source) || (name == svc.name && v == Mounted(Native, source))
        {
          if v.kind.Native? && source == v.source {
            assert At(volumeToServices, source) == At(was, source) + [svc.name];
          }
        }
        assert svc.volumes[..j + 1] == svc.volumes[..j] + [v];
      }
      assert svc.volumes[..|svc.volumes|] == svc.volumes;
    }

    /** The services, other than this one, that share one of the volumes. */
    ghost predicate IsSharer(sources: seq<string>, self: string, name: string) {
      name != self && exists j | 0 <= j < |sources| :: IsUser(services, |services|, sources[j], name)
    }

    method Sharers(sources: seq<string>, self: string) returns (sharers: seq<string>)
      requires Valid()
      ensures forall name :: name in sharers <==> IsSharer(sources, self, name)
      ensures forall i, j | 0 <= i < j < |sharers| :: sharers[i] != sharers[j]
    {
      var all: seq<string> := [];
      for n := 0 to |sources|
        invariant forall name :: name in all <==> exists j | 0 <= j < n :: name in At(volumeToServices, sources[j])
      {
        all := all + At(volumeToServices, sources[n]);
      }
      var unique := Unique(all);
      sharers := Remove(unique, self);
    }

    lemma SharersExactly(native: seq<string>, svc: Service, name: string)
      requires native == NativeSources(svc.volumes, namedBindVolumes)
      ensures IsSharer(native, svc.name, name) <==> Shares(services, namedBindVolumes, svc, name)
    {
      if IsSharer(native, svc.name, name) {
        var j :| 0 <= j < |native| && IsUser(services, |services|, native[j], name);
        var i :| 0 <= i < |services| && services[i].name == name && MountsNative(services[i], native[j]);
        assert native[j] in native;
        NativeSourcesExactly(svc.volumes, namedBindVolumes, native[j]);
      }
      if Shares(services, namedBindVolumes, svc, name) {
        var i, source :| 0 <= i < |services| && services[i].name == name
          && MountsNative(services[i], source) && MountsNative(svc, source) && source !in namedBindVolumes;
        NativeSourcesExactly(svc.volumes, namedBindVolumes, source);
        var j :| 0 <= j < |native| && native[j] == source;
        assert IsUser(services, |services|, native[j], name);
      }
    }

    lemma PlannedFrom(svc: Service, sharers: seq<string>, deps: seq<Dependency>)
      requires forall name :: name in sharers <==> IsSharer(NativeSources(svc.volumes, namedBindVolumes), svc.name,
                name)
      requires svc.dependsOn != map[] ==> Marshalled(svc.dependsOn, svc.links, deps)
      ensures Planned(services, namedBindVolumes, svc, Gates(svc, namedBindVolumes, sharers, deps))
    {
      forall name ensures name in sharers <==> Shares(services, namedBindVolumes, svc, name) {
        SharersExactly(NativeSources(svc.volumes, namedBindVolumes), svc, name);
      }
    }

    method ToPod(svc: Service) returns (spec: PodSpec)
      requires Valid()
      ensures fresh(spec)
      ensures Planned(services, namedBindVolumes, svc, spec.initContainers)
      ensures InOrder(spec.initContainers)
      ensures forall c | c in spec.initContainers :: IsCalledFor(services, namedBindVolumes, svc, c)
      ensures HasAllGates(services, namedBindVolumes, svc, spec.initContainers)
    {
      spec := new PodSpec();
      var native := NativeVolumes(svc.volumes, namedBindVolumes);
      var binds := BindVolumes(svc.volumes, namedBindVolumes);
      ghost var sharers: seq<string> := [];
      ghost var deps: seq<Dependency> := [];
      if native != [] {
        spec.AddVolumeSeeder(native);
        var sharing := Sharers(native, svc.name);
        if sharing != [] {
          spec.AddWaiter(AwaitInitialized(sharing));
        }
        sharers := sharing;
      }
      assert spec.initContainers == SeedGates(native, sharers);
      if svc.dependsOn != map[] {
        var marshalled := MarshalDependencies(svc.dependsOn, svc.links);
        spec.AddWaiter(AwaitDependsOn(marshalled));
        deps := marshalled;
      }
      assert spec.initContainers == SeedGates(native, sharers) + DependencyGates(svc, deps);
      if binds != [] {
        spec.AddWaiter(AwaitSync(binds));
      }
      assert spec.initContainers == Gates(svc, namedBindVolumes, sharers, deps);
      PlannedFrom(svc, sharers, deps);
      PlannedExactly(services, namedBindVolumes, svc, spec.initContainers);
    }
  }

  /** The pod being built: containers are only ever appended. */
  class PodSpec {
    var initContainers: seq<Container>

    constructor ()
      ensures initContainers == []
    {
      initContainers := [];
    }

    method AddVolumeSeeder(sources: seq<string>)
      modifies this
      ensures initContainers == old(initContainers) + [CopyVcp, InitializeVolumes(sources)]
    {
      initContainers := initContainers + [CopyVcp];
      initContainers := initContainers + [InitializeVolumes(sources)];
    }

    method AddWaiter(c: Container)
      modifies this
      ensures initContainers == old(initContainers) + [c]
    {
      initContainers := initContainers + [c];
    }
  }

  method NativeVolumes(volumes: seq<Mounted>, named: map<string, string>) returns (sources: seq<string>)
    ensures sources == NativeSources(volumes, named)
  {
    sources := [];
    for n := 0 to |volumes|
      invariant sources == NativeSources(volumes[..n], named)
    {
      assert volumes[..n + 1][..n] == volumes[..n];
      if volumes[n].kind.Native? && volumes[n].source !in named {
        sources := sources + [volumes[n].source];
      }
    }
    assert volumes[..|volumes|] == volumes;
  }

  method BindVolumes(volumes: seq<Mounted>, named: map<string, string>) returns (sources: seq<string>)
    ensures sources == BindSources(volumes, named)
  {
    sources := [];
    for n := 0 to |volumes|
      invariant sources == BindSources(volumes[..n], named)
    {
      assert volumes[..n + 1][..n] == volumes[..n];
      if volumes[n].kind.Native? && volumes[n].source in named {
        sources := sources + [named[volumes[n].source]];
      } else if volumes[n].kind.Bind? {
        sources := sources + [volumes[n].source];
      }
    }
    assert volumes[..|volumes|] == volumes;
  }

  method Remove(strs: seq<string>, toRemove: string) returns (removed: seq<string>)
    requires forall i, j | 0 <= i < j < |strs| :: strs[i] != strs[j]
    ensures forall s :: s in removed <==> s in strs && s != toRemove
    ensures forall i, j | 0 <= i < j < |removed| :: removed[i] != removed[j]
  {
    removed := [];
    for n := 0 to |strs|
      invariant forall s :: s in removed <==> s in strs[..n] && s != toRemove
      invariant forall i, j | 0 <= i < j < |removed| :: removed[i] != removed[j]
    {
      assert strs[..n + 1] == strs[..n] + [strs[n]] && strs[n] !in strs[..n];
      if strs[n] != toRemove {
        removed := removed + [strs[n]];
      }
    }
    assert strs[..|strs|] == strs;
  }

  /* ----- Dependencies ----- */

  predicate HasDependency(deps: seq<Dependency>, n: nat, name: string)
    requires n <= |deps|
  {
    exists i | 0 <= i < n :: deps[i].service == name
  }

  predicate DistinctServices(deps: seq<Dependency>) {
    forall i, j | 0 <= i < j < |deps| :: deps[i].service != deps[j].service
  }

  method DepExists(deps: seq<Dependency>, service: string) returns (found: bool)
    ensures found <==> HasDependency(deps, |deps|, service)
  {
    for n := 0 to |deps|
      invariant !HasDependency(deps, n, service)
    {
      if deps[n].service == service {
        return true;
      }
    }
    return false;
  }

  /** The dependencies that are declared, in whatever order the map has them. */
  method Declared(dependsOn: map<string, Condition>) returns (deps: seq<Dependency>)
    ensures forall d :: d in deps <==> d.service in dependsOn && d.condition == dependsOn[d.service]
    ensures DistinctServices(deps)
  {
    deps := [];
    var left := dependsOn.Keys;
    while left != {}
      invariant left <= dependsOn.Keys
      invariant forall d :: d in deps <==> d.service in dependsOn.Keys - left && d.condition == dependsOn[d.service]
      invariant DistinctServices(deps)
      decreases left
    {
      var name :| name in left;
      assert forall i | 0 <= i < |deps| :: deps[i] in deps;
      deps := deps + [Dependency(name, dependsOn[name])];
      left := left - {name};
    }
  }

  method MarshalDependencies(dependsOn: map<string, Condition>, links: seq<seq<string>>) returns (deps: seq<Dependency>)
    ensures Marshalled(dependsOn, links, deps)
  {
    var unsorted := Declared(dependsOn);
    for n := 0 to |links|
      invariant forall d :: d in unsorted <==> DependsOn(dependsOn, links[..n], d)
      invariant DistinctServices(unsorted)
    {
      LinkedToMore(links, n);
      if 1 <= |links[n]| <= 2 {
        var service := links[n][0];
        var known := DepExists(unsorted, service);
        if !known {
          assert forall c :: Dependency(service, c) !in unsorted;
          assert service !in dependsOn by {
            assert service in dependsOn ==> DependsOn(dependsOn, links[..n], Dependency(service, dependsOn[service]));
          }
          unsorted := unsorted + [Dependency(service, Started)];
        } else {
          var i :| 0 <= i < |unsorted| && unsorted[i].service == service;
          assert unsorted[i] in unsorted;
        }
      }
    }
    assert links[..|links|] == links;
    deps := SortDescending(unsorted);
  }

  lemma LinkedToMore(links: seq<seq<string>>, n: nat)
    requires n < |links|
    ensures forall name :: LinkedTo(links[..n + 1], name) <==>
      LinkedTo(links[..n], name) || (1 <= |links[n]| <= 2 && links[n][0] == name)
  {
    var more := links[..n + 1];
    forall name
      ensures LinkedTo(more, name) <==> LinkedTo(links[..n], name) || (1 <= |links[n]| <= 2 && links[n][0] == name)
    {
      if 1 <= |links[n]| <= 2 && links[n][0] == name {
        assert more[n] == links[n];
      }
      if LinkedTo(links[..n], name) {
        var i :| 0 <= i < n && 1 <= |links[..n][i]| <= 2 && links[..n][i][0] == name;
        assert more[i] == links[i];
      }
      if LinkedTo(more, name) {
        var i :| 0 <= i < |more| && 1 <= |more[i]| <= 2 && more[i][0] == name;
        assert i < n ==> links[..n][i] == more[i];
      }
    }
  }

  method SortDescending(deps: seq<Dependency>) returns (sorted: seq<Dependency>)
    requires DistinctServices(deps)
    ensures Descending(sorted) && forall d :: d in sorted <==> d in deps
  {
    sorted := [];
    for n := 0 to |deps|
      invariant Descending(sorted) && forall d :: d in sorted <==> d in deps[..n]
    {
      assert deps[..n + 1] == deps[..n] + [deps[n]];
      forall i | 0 <= i < |sorted| ensures sorted[i].service != deps[n].service {
        assert sorted[i] in deps[..n];
      }
      sorted := InsertDescending(sorted, deps[n]);
    }
    assert deps[..|deps|] == deps;
  }

  method InsertDescending(sorted: seq<Dependency>, d: Dependency) returns (result: seq<Dependency>)
    requires Descending(sorted) && forall i | 0 <= i < |sorted| :: sorted[i].service != d.service
    ensures Descending(result) && forall e :: e in result <==> e in sorted || e == d
  {
    var at := 0;
    while at < |sorted| && StringLess(d.service, sorted[at].service)
      invariant 0 <= at <= |sorted|
      invariant forall i | 0 <= i < at :: StringLess(d.service, sorted[i].service)
    {
      at := at + 1;
    }
    result := sorted[..at] + [d] + sorted[at..];
    InsertedDescending(sorted, d, at);
  }

  lemma InsertedDescending(sorted: seq<Dependency>, d: Dependency, at: nat)
    requires Descending(sorted) && at <= |sorted| && forall i | 0 <= i < |sorted| :: sorted[i].service != d.service
    requires forall i | 0 <= i < at :: StringLess(d.service, sorted[i].service)
    requires at < |sorted| ==> !StringLess(d.service, sorted[at].service)
    ensures Descending(sorted[..at] + [d] + sorted[at..])
  {
    forall i | at <= i < |sorted| ensures StringLess(sorted[i].service, d.service) {
      StringLessTotal(sorted[at].service, d.service);
      if i > at {
        StringLessTransitive(sorted[i].service, sorted[at].service, d.service);
      }
    }
  }

  /* ----- What a pod has to look like ----- */

  function SeedGates(native: seq<string>, sharers: seq<string>): seq<Container> {
    if native == [] then []
    else [CopyVcp, InitializeVolumes(native)] + (if sharers != [] then [AwaitInitialized(sharers)] else [])
  }

  function DependencyGates(svc: Service, deps: seq<Dependency>): seq<Container> {
    if svc.dependsOn != map[] then [AwaitDependsOn(deps)] else []
  }

  function SyncGates(binds: seq<string>): seq<Container> {
    if binds != [] then [AwaitSync(binds)] else []
  }

  function Gates(svc: Service, named: map<string, string>, sharers: seq<string>,
                 deps: seq<Dependency>): seq<Container> {
    SeedGates(NativeSources(svc.volumes, named), sharers) + DependencyGates(svc, deps)
    + SyncGates(BindSources(svc.volumes, named))
  }

  /** Another service that uses one of the native volumes of `svc`. */
  ghost predicate Shares(services: seq<Service>, named: map<string, string>, svc: Service, name: string) {
    name != svc.name &&
    exists i, source :: 0 <= i < |services| && services[i].name == name
      && MountsNative(services[i], source) && MountsNative(svc, source) && source !in named
  }

  /** A dependency that is declared, or a link without one. Links count only for
      services that declare a dependency at all. */
  predicate DependsOn(dependsOn: map<string, Condition>, links: seq<seq<string>>, d: Dependency) {
    if d.service in dependsOn then d.condition == dependsOn[d.service]
    else d.condition == Started && LinkedTo(links, d.service)
  }

  /** Links with more than two parts are ignored. */
  predicate LinkedTo(links: seq<seq<string>>, name: string) {
    exists i | 0 <= i < |links| :: 1 <= |links[i]| <= 2 && links[i][0] == name
  }

  predicate Descending(deps: seq<Dependency>) {
    forall i, j | 0 <= i < j < |deps| :: StringLess(deps[j].service, deps[i].service)
  }

  /** The declared dependencies of a service, last name first. */
  ghost predicate Marshalled(dependsOn: map<string, Condition>, links: seq<seq<string>>, deps: seq<Dependency>) {
    Descending(deps) && forall d :: d in deps <==> DependsOn(dependsOn, links, d)
  }

  ghost predicate Planned(services: seq<Service>, named: map<string, string>, svc: Service,
                          containers: seq<Container>) {
    exists sharers, deps ::
      && (forall name :: name in sharers <==> Shares(services, named, svc, name))
      && (svc.dependsOn != map[] ==> Marshalled(svc.dependsOn, svc.links, deps))
      && containers == Gates(svc, named, sharers, deps)
  }

  /* ----- The same, container by container ----- */

  function Rank(c: Container): nat {
    match c
    case CopyVcp => 0
    case InitializeVolumes(_) => 1
    case AwaitInitialized(_) => 2
    case AwaitDependsOn(_) => 3
    case AwaitSync(_) => 4
  }

  /** The tools are copied, the volumes seeded, and the waits are for the sharers,
      for the dependencies and for the sync, in this order; each once at most. */
  predicate InOrder(containers: seq<Container>) {
    forall i, j | 0 <= i < j < |containers| :: Rank(containers[i]) < Rank(containers[j])
  }

  predicate MountsUndeclared(named: map<string, string>, svc: Service, source: string) {
    MountsNative(svc, source) && source !in named
  }

  ghost predicate MountsBind(named: map<string, string>, svc: Service, source: string) {
    || Mounted(Bind, source) in svc.volumes
    || exists name :: name in named && named[name] == source && MountsNative(svc, name)
  }

  /** A container of a pod is there for a reason, and does or waits for what it is
      there for and nothing else. */
  ghost predicate IsCalledFor(services: seq<Service>, named: map<string, string>, svc: Service, c: Container) {
    match c
    case CopyVcp => exists source :: MountsUndeclared(named, svc, source)
    case InitializeVolumes(sources) =>
      sources != [] && forall source :: source in sources <==> MountsUndeclared(named, svc, source)
    case AwaitInitialized(names) =>
      names != [] && forall name :: name in names <==> Shares(services, named, svc, name)
    case AwaitDependsOn(deps) => svc.dependsOn != map[] && Marshalled(svc.dependsOn, svc.links, deps)
    case AwaitSync(sources) => sources != [] && forall source :: source in sources <==> MountsBind(named, svc, source)
  }

  /** Each is there if there is a reason for it. */
  ghost predicate HasAllGates(services: seq<Service>, named: map<string, string>, svc: Service,
                              containers: seq<Container>) {
    && ((exists source :: MountsUndeclared(named, svc, source)) ==> HasRank(containers, 0) && HasRank(containers, 1))
    && ((exists name :: Shares(services, named, svc, name)) ==> HasRank(containers, 2))
    && (svc.dependsOn != map[] ==> HasRank(containers, 3))
    && ((exists source :: MountsBind(named, svc, source)) ==> HasRank(containers, 4))
  }

  predicate HasRank(containers: seq<Container>, rank: nat) {
    exists i | 0 <= i < |containers| :: Rank(containers[i]) == rank
  }

  lemma PlannedExactly(services: seq<Service>, named: map<string, string>, svc: Service, containers: seq<Container>)
    requires Planned(services, named, svc, containers)
    ensures InOrder(containers) && HasAllGates(services, named, svc, containers)
    ensures forall c | c in containers :: IsCalledFor(services, named, svc, c)
  {
    var sharers, deps :| (forall name :: name in sharers <==> Shares(services, named, svc, name))
      && (svc.dependsOn != map[] ==> Marshalled(svc.dependsOn, svc.links, deps))
      && containers == Gates(svc, named, sharers, deps);
    SeedGatesExactly(services, named, svc, sharers);
    DependencyGatesExactly(services, named, svc, deps);
    SyncGatesExactly(services, named, svc);
    PartsExactly(services, named, svc, SeedGates(NativeSources(svc.volumes, named), sharers),
                 DependencyGates(svc, deps), SyncGates(BindSources(svc.volumes, named)));
  }

  lemma PartsExactly(services: seq<Service>, named: map<string, string>, svc: Service, a: seq<Container>,
                     b: seq<Container>, c: seq<Container>)
    requires SeedsAsCalledFor(services, named, svc, a) && DependsAsCalledFor(services, named, svc, b)
    requires SyncsAsCalledFor(services, named, svc, c)
    ensures InOrder(a + b + c) && HasAllGates(services, named, svc, a + b + c)
    ensures forall x | x in a + b + c :: IsCalledFor(services, named, svc, x)
  {
    PartsInOrder(a, b, c);
    PartsHaveRanks(a, b, c);
  }

  ghost predicate SeedsAsCalledFor(services: seq<Service>, named: map<string, string>, svc: Service,
                                   gates: seq<Container>) {
    && InOrder(gates) && (forall c | c in gates :: Rank(c) < 3 && IsCalledFor(services, named, svc, c))
    && ((exists source :: MountsUndeclared(named, svc, source)) ==> HasRank(gates, 0) && HasRank(gates, 1))
    && ((exists name :: Shares(services, named, svc, name)) ==> HasRank(gates, 2))
  }

  ghost predicate DependsAsCalledFor(services: seq<Service>, named: map<string, string>, svc: Service,
                                     gates: seq<Container>) {
    && InOrder(gates) && (forall c | c in gates :: Rank(c) == 3 && IsCalledFor(services, named, svc, c))
    && (svc.dependsOn != map[] ==> HasRank(gates, 3))
  }

  ghost predicate SyncsAsCalledFor(services: seq<Service>, named: map<string, string>, svc: Service,
                                   gates: seq<Container>) {
    && InOrder(gates) && (forall c | c in gates :: Rank(c) == 4 && IsCalledFor(services, named, svc, c))
    && ((exists source :: MountsBind(named, svc, source)) ==> HasRank(gates, 4))
  }

  lemma DependencyGatesExactly(services: seq<Service>, named: map<string, string>, svc: Service,
                               deps: seq<Dependency>)
    requires svc.dependsOn != map[] ==> Marshalled(svc.dependsOn, svc.links, deps)
    ensures DependsAsCalledFor(services, named, svc, DependencyGates(svc, deps))
  {
    if svc.dependsOn != map[] {
      assert Rank(DependencyGates(svc, deps)[0]) == 3;
    }
  }

  lemma PartsInOrder(a: seq<Container>, b: seq<Container>, c: seq<Container>)
    requires InOrder(a) && InOrder(b) && InOrder(c)
    requires (forall x | x in a :: Rank(x) < 3) && (forall x | x in b :: Rank(x) == 3)
    requires forall x | x in c :: Rank(x) == 4
    ensures InOrder(a + b + c)
  {
    assert forall i | 0 <= i < |a| :: a[i] in a;
    assert forall i | 0 <= i < |b| :: b[i] in b;
    assert forall i | 0 <= i < |c| :: c[i] in c;
  }

  lemma PartsHaveRanks(a: seq<Container>, b: seq<Container>, c: seq<Container>)
    ensures forall rank: nat | HasRank(a, rank) || HasRank(b, rank) || HasRank(c, rank) :: HasRank(a + b + c, rank)
  {
    forall rank: nat | HasRank(a, rank) || HasRank(b, rank) || HasRank(c, rank) ensures HasRank(a + b + c, rank) {
      if i :| 0 <= i < |a| && Rank(a[i]) == rank {
        assert (a + b + c)[i] == a[i];
      } else if i :| 0 <= i < |b| && Rank(b[i]) == rank {
        assert (a + b + c)[|a| + i] == b[i];
      } else {
        var i :| 0 <= i < |c| && Rank(c[i]) == rank;
        assert (a + b + c)[|a| + |b| + i] == c[i];
      }
    }
  }

  lemma NativeIsEmpty(named: map<string, string>, svc: Service)
    ensures forall source :: source in NativeSources(svc.volumes, named) <==> MountsUndeclared(named, svc, source)
    ensures NativeSources(svc.volumes, named) != [] <==> exists source :: MountsUndeclared(named, svc, source)
  {
    var native := NativeSources(svc.volumes, named);
    forall source ensures source in native <==> MountsUndeclared(named, svc, source) {
      NativeSourcesExactly(svc.volumes, named, source);
    }
    if native != [] {
      assert native[0] in native;
    }
  }

  lemma SeedGatesExactly(services: seq<Service>, named: map<string, string>, svc: Service, sharers: seq<string>)
    requires forall name :: name in sharers <==> Shares(services, named, svc, name)
    ensures SeedsAsCalledFor(services, named, svc, SeedGates(NativeSources(svc.volumes, named), sharers))
  {
    var native := NativeSources(svc.volumes, named);
    var gates := SeedGates(native, sharers);
    NativeIsEmpty(named, svc);
    if native != [] {
      assert Rank(gates[0]) == 0 && Rank(gates[1]) == 1;
    }
    if name :| Shares(services, named, svc, name) {
      assert name in sharers;
      SharerIsNative(services, named, svc, name);
      assert Rank(gates[2]) == 2;
    }
  }

  lemma SharerIsNative(services: seq<Service>, named: map<string, string>, svc: Service, name: string)
    requires Shares(services, named, svc, name)
    ensures exists source :: MountsUndeclared(named, svc, source)
  {
    var i, source :| 0 <= i < |services| && services[i].name == name
      && MountsNative(services[i], source) && MountsNative(svc, source) && source !in named;
    assert MountsUndeclared(named, svc, source);
  }

  lemma SyncGatesExactly(services: seq<Service>, named: map<string, string>, svc: Service)
    ensures SyncsAsCalledFor(services, named, svc, SyncGates(BindSources(svc.volumes, named)))
  {
    var binds := BindSources(svc.volumes, named);
    forall source ensures source in binds <==> MountsBind(named, svc, source) {
      BindSourcesExactly(svc.volumes, named, source);
    }
    if binds != [] {
      assert Rank(SyncGates(binds)[0]) == 4;
    }
  }

  /** What is marshalled does not depend on the order in which the map of
      dependencies was read. */
  lemma {:induction false} MarshalledIsCanonical(s: seq<Dependency>, t: seq<Dependency>)
    requires Descending(s) && Descending(t) && forall d :: d in s <==> d in t
    ensures s == t
  {
    assert (s != [] ==> s[0] in t) && (t != [] ==> t[0] in s);
    if s != [] {
      FirstIsSame(s, t);
      forall d ensures d in s[1..] <==> d in t[1..] {
        RestHas(s, d);
        RestHas(t, d);
      }
      MarshalledIsCanonical(s[1..], t[1..]);
      assert s == [s[0]] + s[1..] && t == [t[0]] + t[1..];
    }
  }

  lemma FirstIsSame(s: seq<Dependency>, t: seq<Dependency>)
    requires Descending(s) && Descending(t) && s != [] && t != [] && forall d :: d in s <==> d in t
    ensures s[0] == t[0]
  {
    assert s[0] in t && t[0] in s;
    var i :| 0 <= i < |t| && t[i] == s[0];
    var j :| 0 <= j < |s| && s[j] == t[0];
    StringLessTotal(s[0].service, t[0].service);
  }

  lemma RestHas(s: seq<Dependency>, d: Dependency)
    requires Descending(s) && s != []
    ensures d in s[1..] <==> d in s && d != s[0]
  {
    StringLessTotal(s[0].service, s[0].service);
    if d in s[1..] {
      var i :| 0 <= i < |s| - 1 && s[1..][i] == d;
      assert s[i + 1] == d;
    }
    if d in s && d != s[0] {
      var i :| 0 <= i < |s| && s[i] == d;
      assert s[1..][i - 1] == d;
    }
  }

  /* ----- What the pods of a project have to do with each other ----- */

  /** Whoever a service waits for to have its volumes initialized does so, before
      it waits for anything. */
  lemma SharersSeedFirst(services: seq<Service>, named: map<string, string>, svc: Service, other: Service,
                         containers: seq<Container>)
    requires other in services && Shares(services, named, svc, other.name)
    requires forall i, j | 0 <= i < |services| && 0 <= j < |services| :: services[i].name == services[j].name ==> i == j
    requires Planned(services, named, other, containers)
    ensures |containers| >= 2 && containers[0] == CopyVcp && containers[1].InitializeVolumes?
    ensures exists source :: MountsNative(svc, source) && source in containers[1].sources
  {
    var i, source :| 0 <= i < |services| && services[i].name == other.name
      && MountsNative(services[i], source) && MountsNative(svc, source) && source !in named;
    NativeSourcesExactly(other.volumes, named, source);
  }
}
