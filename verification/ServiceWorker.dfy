// The scoring app's service worker: what it keeps at install, and which caches it removes when it
// takes over (apps/web-staff/public/sw.js).
module ServiceWorker {
  type Cache = map<string, string>

  /** What the network answered for an address. */
  datatype Answer = Page(body: string) | Refused(status: nat) | NoAnswer

  /** One install's network: what each shell and each static file was answered. */
  datatype Network = Network(shell: string -> Answer, file: string -> Answer)

  datatype Result = Kept(body: string) | Absent | Missed

  /** `keep`: a refusal under 500 says there is no such file; anything else may come at the next try. */
  function ResultOf(answer: Answer): Result
  {
    match answer
    case Page(body) => Kept(body)
    case Refused(status) => if status < 500 then Absent else Missed
    case NoAnswer => Missed
  }

  // ---- names ----

  const FAMILY_BASE := "myclash-staff"

  /** A mount is empty, or starts with a slash. */
  predicate IsMount(mount: string)
  {
    mount == "" || mount[0] == '/'
  }

  /** `MOUNT.replace('/', '~')`: the first slash, which a mount starts with. */
  function Tilde(mount: string): string
    requires IsMount(mount)
  {
    if mount == "" then "" else "~" + mount[1..]
  }

  function Family(mount: string): string
    requires IsMount(mount)
  {
    FAMILY_BASE + Tilde(mount) + "-"
  }

  function CacheName(mount: string, version: string): string
    requires IsMount(mount)
  {
    Family(mount) + version
  }

  function ShellUrls(mount: string): seq<string>
  {
    [mount + "/", mount + "/login", mount + "/lices", mount + "/offline", mount + "/desk", mount + "/gear",
     mount + "/matches/_", mount + "/lices/_"]
  }

  // ---- what an install leaves ----

  function PutShells(cache: Cache, shells: seq<string>, net: Network): Cache
  {
    if shells == [] then cache
    else
      var earlier, url := PutShells(cache, shells[..|shells| - 1], net), shells[|shells| - 1];
      match ResultOf(net.shell(url))
      case Kept(body) => earlier[url := body]
      case Absent => earlier
      case Missed => earlier
  }

  /** The static files the kept shells name. */
  function FilesNamed(shells: seq<string>, net: Network, filesOf: string -> set<string>): set<string>
  {
    if shells == [] then {}
    else
      var earlier, url := FilesNamed(shells[..|shells| - 1], net, filesOf), shells[|shells| - 1];
      match ResultOf(net.shell(url))
      case Kept(body) => earlier + filesOf(body)
      case Absent => earlier
      case Missed => earlier
  }

  function PutFiles(cache: Cache, files: set<string>, net: Network): Cache
  {
    cache + map f | f in files && net.file(f).Page? :: net.file(f).body
  }

  function AfterKeepShells(cache: Cache, shells: seq<string>, net: Network, filesOf: string -> set<string>): Cache
  {
    PutFiles(PutShells(cache, shells, net), FilesNamed(shells, net, filesOf), net)
  }

  predicate NoneMissed(shells: seq<string>, net: Network)
  {
    forall i :: 0 <= i < |shells| ==> ResultOf(net.shell(shells[i])) != Missed
  }

  predicate NoFileMissed(files: set<string>, net: Network)
  {
    forall f :: f in files ==> ResultOf(net.file(f)) != Missed
  }

  predicate IsWhole(shells: seq<string>, net: Network, filesOf: string -> set<string>)
  {
    NoneMissed(shells, net) && NoFileMissed(FilesNamed(shells, net, filesOf), net)
  }

  /** Each shell, and each static file a kept shell names, is in the cache or was answered as absent. */
  ghost predicate HoldsEverything(cache: Cache, shells: seq<string>, net: Network, filesOf: string -> set<string>)
  {
    forall url :: url in shells ==>
      || ResultOf(net.shell(url)) == Absent
      || (&& url in cache && net.shell(url).Page?
          && forall f :: f in filesOf(net.shell(url).body) ==> f in cache || ResultOf(net.file(f)) == Absent)
  }

  lemma {:induction false} PutShellsKeeps(cache: Cache, shells: seq<string>, net: Network)
    ensures forall url :: url in PutShells(cache, shells, net) <==> url in cache || (url in shells && net.shell(url).Page?)
  {
    if shells != [] {
      var rest, last := shells[..|shells| - 1], shells[|shells| - 1];
      PutShellsKeeps(cache, rest, net);
      assert shells == rest + [last];
    }
  }

  lemma {:induction false} FilesNamedHas(shells: seq<string>, net: Network, filesOf: string -> set<string>, url: string)
    requires url in shells && net.shell(url).Page?
    ensures filesOf(net.shell(url).body) <= FilesNamed(shells, net, filesOf)
  {
    var rest, last := shells[..|shells| - 1], shells[|shells| - 1];
    assert shells == rest + [last];
    if url in rest {
      FilesNamedHas(rest, net, filesOf, url);
    }
  }

  /** An install that missed nothing leaves a cache that holds everything. */
  lemma {:induction false} WholeHoldsEverything(cache: Cache, shells: seq<string>, net: Network, filesOf: string -> set<string>)
    requires IsWhole(shells, net, filesOf)
    ensures HoldsEverything(AfterKeepShells(cache, shells, net, filesOf), shells, net, filesOf)
  {
    var after := AfterKeepShells(cache, shells, net, filesOf);
    PutShellsKeeps(cache, shells, net);
    forall url | url in shells && ResultOf(net.shell(url)) != Absent
      ensures url in after && net.shell(url).Page?
      ensures forall f :: f in filesOf(net.shell(url).body) ==> f in after || ResultOf(net.file(f)) == Absent
    {
      var i :| 0 <= i < |shells| && shells[i] == url;
      assert ResultOf(net.shell(shells[i])) != Missed;
      FilesNamedHas(shells, net, filesOf, url);
    }
  }

  lemma {:induction false} PutOneMore(cache: Cache, files: set<string>, file: string, net: Network)
    requires file !in files
    ensures PutFiles(cache, files + {file}, net) == KeptIn(PutFiles(cache, files, net), file, net.file(file))
    ensures NoFileMissed(files + {file}, net) <==> NoFileMissed(files, net) && ResultOf(net.file(file)) != Missed
  {
  }

  // ---- the cache storage of an origin ----

  function Opened(caches: map<string, Cache>, name: string): map<string, Cache>
  {
    if name in caches then caches else caches[name := map[]]
  }

  /** Storing twice under a name is storing the second, and storing what is there changes nothing. */
  lemma {:induction false} StoredAgain(caches: map<string, Cache>, name: string, first: Cache, second: Cache)
    ensures caches[name := first][name := second] == caches[name := second]
    ensures name in caches ==> caches[name := caches[name]] == caches
  {
  }

  function KeptIn(cache: Cache, url: string, answer: Answer): Cache
  {
    if answer.Page? then cache[url := answer.body] else cache
  }

  /** The caches after an install tried to keep its shells under a name. */
  function Filled(caches: map<string, Cache>, name: string, shells: seq<string>, net: Network, filesOf: string -> set<string>): map<string, Cache>
  {
    caches[name := AfterKeepShells(Opened(caches, name)[name], shells, net, filesOf)]
  }

  /** The caches after the worker of a mount took over: of its family only its own is left. */
  function Purged(caches: map<string, Cache>, family: string, name: string): map<string, Cache>
  {
    map key | key in caches && !(family <= key && key != name) :: caches[key]
  }

  class CacheStorage {
    var caches: map<string, Cache>

    constructor ()
      ensures caches == map[]
    {
      caches := map[];
    }

    method Open(name: string)
      modifies this
      ensures caches == Opened(old(caches), name)
    {
      if name !in caches {
        caches := caches[name := map[]];
      }
    }

    method Keep(name: string, url: string, answer: Answer) returns (result: Result)
      requires name in caches
      modifies this
      ensures result == ResultOf(answer)
      ensures caches == old(caches)[name := KeptIn(old(caches[name]), url, answer)]
    {
      StoredAgain(caches, name, map[], map[]);
      match answer {
        case Page(body) =>
          caches := caches[name := caches[name][url := body]];
          return Kept(body);
        case Refused(status) =>
          result := if status < 500 then Absent else Missed;
        case NoAnswer =>
          result := Missed;
      }
    }

    method KeepShells(name: string, shells: seq<string>, net: Network, filesOf: string -> set<string>) returns (whole: bool)
      requires name in caches
      modifies this
      ensures caches == Filled(old(caches), name, shells, net, filesOf)
      ensures whole <==> IsWhole(shells, net, filesOf)
    {
      ghost var before, cache := caches, caches[name];
      var files;
      files, whole := AskShells(name, shells, net, filesOf);
      var noneMissed := KeepFiles(name, files, net);
      StoredAgain(before, name, PutShells(cache, shells, net), PutFiles(PutShells(cache, shells, net), files, net));
      whole := whole && noneMissed;
    }

    /** The shells one after the other, and the files the kept ones name. */
    method AskShells(name: string, shells: seq<string>, net: Network, filesOf: string -> set<string>)
      returns (files: set<string>, noneMissed: bool)
      requires name in caches
      modifies this
      ensures caches == old(caches)[name := PutShells(old(caches[name]), shells, net)]
      ensures files == FilesNamed(shells, net, filesOf)
      ensures noneMissed <==> NoneMissed(shells, net)
    {
      files, noneMissed := {}, true;
      ghost var before, cache := caches, caches[name];
      StoredAgain(before, name, cache, cache);
      for i := 0 to |shells|
        invariant caches == before[name := PutShells(cache, shells[..i], net)]
        invariant files == FilesNamed(shells[..i], net, filesOf)
        invariant noneMissed <==> NoneMissed(shells[..i], net)
      {
        var sofar := shells[..i + 1];
        assert sofar == shells[..i] + [shells[i]] && sofar[..i] == shells[..i];
        var result := Keep(name, shells[i], net.shell(shells[i]));
        StoredAgain(before, name, PutShells(cache, shells[..i], net), PutShells(cache, sofar, net));
        if result == Missed {
          noneMissed := false;
        }
        if result.Kept? {
          files := files + filesOf(result.body);
        }
      }
      assert shells[..|shells|] == shells;
    }

    /** The files are asked all at once: in whatever order they are answered. */
    method KeepFiles(name: string, files: set<string>, net: Network) returns (noneMissed: bool)
      requires name in caches
      modifies this
      ensures caches == old(caches)[name := PutFiles(old(caches[name]), files, net)]
      ensures noneMissed <==> NoFileMissed(files, net)
    {
      noneMissed := true;
      var left := files;
      ghost var before, cache, kept := caches, caches[name], {};
      StoredAgain(before, name, cache, cache);
      assert PutFiles(cache, {}, net) == cache;
      while left != {}
        invariant kept !! left && kept + left == files
        invariant caches == before[name := PutFiles(cache, kept, net)]
        invariant noneMissed <==> NoFileMissed(kept, net)
        decreases |left|
      {
        var file :| file in left;
        PutOneMore(cache, kept, file, net);
        var result := Keep(name, file, net.file(file));
        StoredAgain(before, name, PutFiles(cache, kept, net), PutFiles(cache, kept + {file}, net));
        if result == Missed {
          noneMissed := false;
        }
        left, kept := left - {file}, kept + {file};
      }
      assert kept == files;
    }

    /** An install the network cut short fails when another worker is active. */
    method Install(mount: string, version: string, active: bool, net: Network, filesOf: string -> set<string>) returns (installed: bool)
      requires IsMount(mount)
      modifies this
      ensures caches == Filled(old(caches), CacheName(mount, version), ShellUrls(mount), net, filesOf)
      ensures installed <==> IsWhole(ShellUrls(mount), net, filesOf) || !active
    {
      Open(CacheName(mount, version));
      var whole := KeepShells(CacheName(mount, version), ShellUrls(mount), net, filesOf);
      installed := whole || !active;
    }

    method Activate(mount: string, version: string)
      requires IsMount(mount)
      modifies this
      ensures caches == Purged(old(caches), Family(mount), CacheName(mount, version))
    {
      var family, name := Family(mount), CacheName(mount, version);
      var keys := set key | key in caches && family <= key && key != name;
      caches := caches - keys;
    }
  }

  // ---- two mounts on one origin ----

  /** Neither mount's name goes on with a dash where the other's ends. */
  predicate AreApart(a: string, b: string)
  {
    a != b && !(a + "-" <= b) && !(b + "-" <= a)
  }

  lemma {:induction false} SameStart(base: string, a: string, b: string)
    ensures base + a <= base + b <==> a <= b
  {
    assert (base + a)[|base|..] == a && (base + b)[|base|..] == b;
    if a <= b {
      assert base + b == base + a + b[|a|..];
    }
  }

  lemma {:induction false} SameStartThenDash(base: string, a: string, b: string, dash: string, version: string)
    ensures base + a + dash <= base + b + dash + version <==> a + dash <= b + dash + version
  {
    assert base + a + dash == base + (a + dash);
    assert base + b + dash + version == base + (b + dash + version);
    SameStart(base, a + dash, b + dash + version);
  }

  /** A name of one mount starts with another mount's family exactly when what follows the base does. */
  lemma {:induction false} FamilyIsAPrefix(a: string, b: string, version: string)
    requires IsMount(a) && IsMount(b)
    ensures Family(a) <= CacheName(b, version) <==> Tilde(a) + "-" <= Tilde(b) + "-" + version
  {
    SameStartThenDash(FAMILY_BASE, Tilde(a), Tilde(b), "-", version);
  }

  lemma {:induction false} TildeIsApart(a: string, b: string)
    requires IsMount(a) && IsMount(b)
    ensures Tilde(a) == Tilde(b) <==> a == b
    ensures Tilde(a) + "-" <= Tilde(b) <==> a + "-" <= b
  {
    if a != "" && b != "" {
      assert a == "/" + a[1..] && b == "/" + b[1..];
      SameStart("~", a[1..] + "-", b[1..]);
      SameStart("/", a[1..] + "-", b[1..]);
      assert "~" + (a[1..] + "-") == Tilde(a) + "-" && "/" + (a[1..] + "-") == a + "-";
      if Tilde(a) == Tilde(b) {
        assert Tilde(a)[1..] == a[1..] && Tilde(b)[1..] == b[1..];
      }
    } else if a == "" && b != "" {
      assert Tilde(b)[0] == '~' && b[0] == '/';
      assert (Tilde(a) + "-")[0] == '-';
    }
  }

  /** Of two texts that each end in a dash, one starting another's continuation means one extends the other. */
  lemma {:induction false} PrefixesMeet(x: string, y: string, v: string)
    requires x + "-" <= y + "-" + v
    ensures x == y || x + "-" <= y || y + "-" <= x
  {
    var whole := y + "-" + v;
    assert forall k :: 0 <= k < |x| ==> x[k] == (x + "-")[k] == whole[k];
    assert (x + "-")[|x|] == '-' == whole[|x|];
    if |x| < |y| {
      assert forall k :: 0 <= k <= |x| ==> y[k] == whole[k] == (x + "-")[k];
      assert y == (x + "-") + y[|x| + 1..];
    } else if |x| == |y| {
      assert x == whole[..|x|] == y;
    } else {
      assert forall k :: 0 <= k <= |y| ==> x[k] == whole[k] == (y + "-")[k];
      assert x == (y + "-") + x[|y| + 1..];
    }
  }

  /**
   * Taking over never removes another mount's cache, whatever the versions, exactly when neither
   * mount goes on with a dash where the other ends.
   */
  lemma {:induction false} OtherMountsAreKept(a: string, b: string)
    requires IsMount(a) && IsMount(b) && a != b
    ensures AreApart(a, b) <==>
            (forall v :: !(Family(a) <= CacheName(b, v))) && (forall v :: !(Family(b) <= CacheName(a, v)))
  {
    TildeIsApart(a, b);
    TildeIsApart(b, a);
    if AreApart(a, b) {
      forall v
        ensures !(Family(a) <= CacheName(b, v)) && !(Family(b) <= CacheName(a, v))
      {
        FamilyIsAPrefix(a, b, v);
        FamilyIsAPrefix(b, a, v);
        if Family(a) <= CacheName(b, v) {
          PrefixesMeet(Tilde(a), Tilde(b), v);
        }
        if Family(b) <= CacheName(a, v) {
          PrefixesMeet(Tilde(b), Tilde(a), v);
        }
      }
    } else {
      FamilyIsAPrefix(a, b, "");
      FamilyIsAPrefix(b, a, "");
      if a + "-" <= b {
        assert Tilde(b) <= Tilde(b) + "-" + "";
        assert Family(a) <= CacheName(b, "");
      } else {
        assert Tilde(a) <= Tilde(a) + "-" + "";
        assert Family(b) <= CacheName(a, "");
      }
    }
  }

  /** The two mounts of the deploy, the referee site's root and `/staff`, are apart. */
  lemma {:induction false} DeployedMountsAreApart()
    ensures AreApart("", "/staff") && Family("") == "myclash-staff-" && Family("/staff") == "myclash-staff~staff-"
  {
    assert "/staff"[1..] == "staff";
    assert ("" + "-")[0] == '-' && "/staff"[0] == '/';
    assert |"/staff" + "-"| > |""|;
  }
}
