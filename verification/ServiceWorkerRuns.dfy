// Runs of deploys over one origin: installs the network may cut anywhere, take-overs, and pages
// served meanwhile (apps/web-staff/public/sw.js).
module ServiceWorkerRuns {
  import opened ServiceWorker

  /** A worker that installed: its version, what its install was answered, and whether it replaces another. */
  datatype Worker = Worker(version: string, net: Network, isSuccessor: bool)

  datatype World = World(caches: map<string, Cache>, active: map<string, Worker>, waiting: map<string, Worker>)

  /** A step of one mount. A worker the browser stopped mid-install has put some of its pages. */
  datatype Step =
    | Install(version: string, net: Network)
    | InstallStopped(version: string, put: Cache)
    | TakeOver
    | Serve(url: string, body: string)

  function Added(caches: map<string, Cache>, name: string, put: Cache): map<string, Cache>
  {
    caches[name := Opened(caches, name)[name] + put]
  }

  /** Installs are serialised: a mount with a worker waiting to take over starts no other. */
  function Apply(w: World, mount: string, step: Step, filesOf: string -> set<string>): World
    requires IsMount(mount)
  {
    match step
    case Install(version, net) =>
      if mount in w.waiting then w
      else
        var caches := Filled(w.caches, CacheName(mount, version), ShellUrls(mount), net, filesOf);
        if IsWhole(ShellUrls(mount), net, filesOf) || mount !in w.active then
          World(caches, w.active, w.waiting[mount := Worker(version, net, mount in w.active)])
        else World(caches, w.active, w.waiting)
    case InstallStopped(version, put) =>
      if mount in w.waiting then w else w.(caches := Added(w.caches, CacheName(mount, version), put))
    case TakeOver =>
      if mount !in w.waiting then w
      else
        var worker := w.waiting[mount];
        World(Purged(w.caches, Family(mount), CacheName(mount, worker.version)), w.active[mount := worker], w.waiting - {mount})
    case Serve(url, body) =>
      if mount !in w.active then w else w.(caches := Added(w.caches, CacheName(mount, w.active[mount].version), map[url := body]))
  }

  datatype Move = Move(mount: string, step: Step)

  function Run(moves: seq<Move>, filesOf: string -> set<string>): World
    requires forall k :: 0 <= k < |moves| ==> IsMount(moves[k].mount)
  {
    if moves == [] then World(map[], map[], map[])
    else
      var last := moves[|moves| - 1];
      Apply(Run(moves[..|moves| - 1], filesOf), last.mount, last.step, filesOf)
  }

  /** Mounts that share an origin and do not run into each other's names. */
  ghost predicate MountsAreApart(mounts: set<string>)
  {
    && (forall m :: m in mounts ==> IsMount(m))
    && (forall a, b :: a in mounts && b in mounts && a != b ==> AreApart(a, b))
  }

  /** A worker's own cache is there, and whole if it replaces another worker. */
  ghost predicate IsEquipped(caches: map<string, Cache>, mount: string, worker: Worker, filesOf: string -> set<string>)
    requires IsMount(mount)
  {
    && CacheName(mount, worker.version) in caches
    && (worker.isSuccessor ==>
          HoldsEverything(caches[CacheName(mount, worker.version)], ShellUrls(mount), worker.net, filesOf))
  }

  ghost predicate Inv(w: World, mounts: set<string>, filesOf: string -> set<string>)
    requires MountsAreApart(mounts)
  {
    && w.active.Keys <= mounts && w.waiting.Keys <= mounts
    && (forall m :: m in w.active ==> IsEquipped(w.caches, m, w.active[m], filesOf))
    && (forall m :: m in w.waiting ==> IsEquipped(w.caches, m, w.waiting[m], filesOf))
  }

  /** Caches only gained pages. */
  ghost predicate Grew(before: map<string, Cache>, after: map<string, Cache>)
  {
    forall name :: name in before ==> name in after && before[name].Keys <= after[name].Keys
  }

  lemma {:induction false} HoldsMore(before: Cache, after: Cache, shells: seq<string>, net: Network, filesOf: string -> set<string>)
    requires HoldsEverything(before, shells, net, filesOf) && before.Keys <= after.Keys
    ensures HoldsEverything(after, shells, net, filesOf)
  {
    forall url | url in shells && ResultOf(net.shell(url)) != Absent
      ensures url in after && net.shell(url).Page?
      ensures forall f :: f in filesOf(net.shell(url).body) ==> f in after || ResultOf(net.file(f)) == Absent
    {
      assert url in before.Keys;
      forall f | f in filesOf(net.shell(url).body) && ResultOf(net.file(f)) != Absent
        ensures f in after
      {
        assert f in before.Keys;
      }
    }
  }

  lemma {:induction false} EquippedGrows(before: map<string, Cache>, after: map<string, Cache>, mount: string, worker: Worker,
                                         filesOf: string -> set<string>)
    requires IsMount(mount) && IsEquipped(before, mount, worker, filesOf) && Grew(before, after)
    ensures IsEquipped(after, mount, worker, filesOf)
  {
    var name := CacheName(mount, worker.version);
    if worker.isSuccessor {
      HoldsMore(before[name], after[name], ShellUrls(mount), worker.net, filesOf);
    }
  }

  /** Adding pages takes nothing from any worker. */
  lemma {:induction false} GrowthKeeps(w: World, caches: map<string, Cache>, mounts: set<string>, filesOf: string -> set<string>)
    requires MountsAreApart(mounts) && Inv(w, mounts, filesOf) && Grew(w.caches, caches)
    ensures Inv(w.(caches := caches), mounts, filesOf)
  {
    forall m | m in w.active
      ensures IsEquipped(caches, m, w.active[m], filesOf)
    {
      EquippedGrows(w.caches, caches, m, w.active[m], filesOf);
    }
    forall m | m in w.waiting
      ensures IsEquipped(caches, m, w.waiting[m], filesOf)
    {
      EquippedGrows(w.caches, caches, m, w.waiting[m], filesOf);
    }
  }

  lemma {:induction false} FilledGrew(caches: map<string, Cache>, name: string, shells: seq<string>, net: Network, filesOf: string -> set<string>)
    ensures Grew(caches, Filled(caches, name, shells, net, filesOf))
  {
    PutShellsKeeps(Opened(caches, name)[name], shells, net);
  }

  lemma {:induction false} InstallKeeps(w: World, mount: string, version: string, net: Network, mounts: set<string>,
                                        filesOf: string -> set<string>)
    requires MountsAreApart(mounts) && Inv(w, mounts, filesOf) && mount in mounts
    ensures Inv(Apply(w, mount, Install(version, net), filesOf), mounts, filesOf)
  {
    if mount !in w.waiting {
      var name, shells := CacheName(mount, version), ShellUrls(mount);
      var caches := Filled(w.caches, name, shells, net, filesOf);
      FilledGrew(w.caches, name, shells, net, filesOf);
      GrowthKeeps(w, caches, mounts, filesOf);
      if IsWhole(shells, net, filesOf) || mount !in w.active {
        var worker := Worker(version, net, mount in w.active);
        if worker.isSuccessor {
          WholeHoldsEverything(Opened(w.caches, name)[name], shells, net, filesOf);
        }
        assert IsEquipped(caches, mount, worker, filesOf);
      }
    }
  }

  /** What a mount's take-over does to a name: it removes it exactly when it is an older one of its own family. */
  lemma {:induction false} PurgeSparesOthers(mount: string, other: string, version: string, own: string)
    requires IsMount(mount) && IsMount(other) && AreApart(mount, other)
    ensures !(Family(mount) <= CacheName(other, version) && CacheName(other, version) != own)
  {
    OtherMountsAreKept(mount, other);
  }

  lemma {:induction false} EquippedAfterPurge(caches: map<string, Cache>, mount: string, own: string, other: string, worker: Worker,
                                              filesOf: string -> set<string>)
    requires IsMount(mount) && IsMount(other) && IsEquipped(caches, other, worker, filesOf)
    requires AreApart(mount, other) || CacheName(other, worker.version) == own
    ensures IsEquipped(Purged(caches, Family(mount), own), other, worker, filesOf)
  {
    if AreApart(mount, other) {
      PurgeSparesOthers(mount, other, worker.version, own);
    }
  }

  lemma {:induction false} TakeOverKeeps(w: World, mount: string, mounts: set<string>, filesOf: string -> set<string>)
    requires MountsAreApart(mounts) && Inv(w, mounts, filesOf) && mount in mounts
    ensures Inv(Apply(w, mount, TakeOver, filesOf), mounts, filesOf)
  {
    if mount in w.waiting {
      var worker := w.waiting[mount];
      var own := CacheName(mount, worker.version);
      var after := Apply(w, mount, TakeOver, filesOf);
      forall m | m in after.active
        ensures IsEquipped(after.caches, m, after.active[m], filesOf)
      {
        EquippedAfterPurge(w.caches, mount, own, m, after.active[m], filesOf);
      }
      forall m | m in after.waiting
        ensures IsEquipped(after.caches, m, after.waiting[m], filesOf)
      {
        EquippedAfterPurge(w.caches, mount, own, m, after.waiting[m], filesOf);
      }
    }
  }

  /**
   * Over every run of installs, take-overs and pages served on one origin: every active worker has its
   * own cache, and one that replaced another has it whole, from its take-over on.
   */
  lemma {:induction false} EveryRunKeeps(moves: seq<Move>, mounts: set<string>, filesOf: string -> set<string>)
    requires MountsAreApart(mounts) && forall k :: 0 <= k < |moves| ==> moves[k].mount in mounts
    ensures Inv(Run(moves, filesOf), mounts, filesOf)
  {
    if moves != [] {
      var rest, last := moves[..|moves| - 1], moves[|moves| - 1];
      assert last.mount in mounts;
      EveryRunKeeps(rest, mounts, filesOf);
      var w := Run(rest, filesOf);
      match last.step {
        case Install(version, net) => InstallKeeps(w, last.mount, version, net, mounts, filesOf);
        case InstallStopped(version, put) =>
          GrowthKeeps(w, Added(w.caches, CacheName(last.mount, version), put), mounts, filesOf);
        case TakeOver => TakeOverKeeps(w, last.mount, mounts, filesOf);
        case Serve(url, body) =>
          if last.mount in w.active {
            GrowthKeeps(w, Added(w.caches, CacheName(last.mount, w.active[last.mount].version), map[url := body]), mounts, filesOf);
          }
      }
    }
  }

  /** An install that fails changes no worker and no cache but the one it was filling, and there it takes nothing away. */
  lemma {:induction false} FailedInstallLeavesTheWorker(w: World, mount: string, version: string, net: Network, filesOf: string -> set<string>)
    requires IsMount(mount) && mount in w.active && mount !in w.waiting && !IsWhole(ShellUrls(mount), net, filesOf)
    ensures
      var after := Apply(w, mount, Install(version, net), filesOf);
      && after.active == w.active && after.waiting == w.waiting
      && Grew(w.caches, after.caches)
      && (forall name :: name in w.caches && name != CacheName(mount, version) ==> after.caches[name] == w.caches[name])
      && (version != w.active[mount].version && CacheName(mount, w.active[mount].version) in w.caches ==>
            after.caches[CacheName(mount, w.active[mount].version)] == w.caches[CacheName(mount, w.active[mount].version)])
  {
    FilledGrew(w.caches, CacheName(mount, version), ShellUrls(mount), net, filesOf);
    var family := Family(mount);
    if version != w.active[mount].version {
      assert (family + version)[|family|..] == version;
      assert (family + w.active[mount].version)[|family|..] == w.active[mount].version;
    }
  }

  /** After a take-over no older cache of the mount is left, and every cache of another mount is as it was. */
  lemma {:induction false} TakeOverClearsItsOwnMount(w: World, mount: string, other: string, version: string, filesOf: string -> set<string>)
    requires IsMount(mount) && IsMount(other) && AreApart(mount, other) && mount in w.waiting
    ensures
      var after := Apply(w, mount, TakeOver, filesOf).caches;
      && (forall name :: name in after && Family(mount) <= name ==> name == CacheName(mount, w.waiting[mount].version))
      && (CacheName(other, version) in w.caches ==>
            CacheName(other, version) in after && after[CacheName(other, version)] == w.caches[CacheName(other, version)])
  {
    PurgeSparesOthers(mount, other, version, CacheName(mount, w.waiting[mount].version));
  }
}
