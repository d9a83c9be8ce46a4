/**
 Numbers for nested sub-assemblies, after `encodeSubPath` and `decodeSubPath` of
 libevmasm/Assembly.cpp: paths of more than one step get numbers counted down
 from 2^64 - 1, so that every number handed out stands for one path forever.
 */
module SubPaths {
  import opened Wrappers
  import opened Bytes
  import AssemblyModel

  const MAX_ID: nat := TWO_64 - 1

  class Registry {
    /** The number of direct sub-assemblies and the numbers of nested paths. */
    var subs: nat
    var subPaths: map<seq<nat>, nat>

    constructor ()
      ensures Valid() && subs == 0 && subPaths == map[]
    {
      subs, subPaths := 0, map[];
    }

    /** Numbers of paths are distinct, in the order of registration from the top
        down, and above those of the direct sub-assemblies. */
    ghost predicate Valid()
      reads this
    {
      (forall p <- subPaths :: |p| > 1 && subs <= subPaths[p] <= MAX_ID && MAX_ID - |subPaths| < subPaths[p]) &&
      (forall p <- subPaths, q <- subPaths :: subPaths[p] == subPaths[q] ==> p == q)
    }

    /** `id` stands for `path`, and for no other. */
    ghost predicate StandsFor(id: nat, path: seq<nat>)
      reads this
    {
      if id < subs then path == [id] else path in subPaths && subPaths[path] == id
    }

    /** `encodeSubPath`; None where an assertion fires. */
    method EncodeSubPath(path: seq<nat>) returns (id: Option<nat>)
      requires Valid()
      modifies this`subPaths
      ensures Valid()
      ensures id.Some? ==> StandsFor(id.value, path)
      ensures forall i, p :: old(StandsFor(i, p)) ==> StandsFor(i, p)
      ensures |old(subPaths)| <= |subPaths| <= |old(subPaths)| + 1
      ensures id.None? <==>
        path == [] || (|path| == 1 && path[0] >= subs) ||
        (|path| > 1 && path !in old(subPaths) && MAX_ID - |old(subPaths)| < subs)
    {
      if path == [] {
        return None;
      }
      if |path| == 1 {
        if path[0] >= subs {
          return None;
        }
        return Some(path[0]);
      }
      if path !in subPaths {
        var objectId := MAX_ID - |subPaths|;
        if objectId < subs {
          return None;
        }
        subPaths := subPaths[path := objectId];
      }
      return Some(subPaths[path]);
    }

    /** `decodeSubPath`; None where the assertion fires. */
    method DecodeSubPath(id: nat) returns (path: Option<seq<nat>>)
      requires Valid()
      ensures path.Some? ==> forall p :: StandsFor(id, p) <==> p == path.value
      ensures path.None? ==> forall p :: !StandsFor(id, p)
    {
      if id < subs {
        return Some([id]);
      }
      var todo := subPaths.Keys;
      while todo != {}
        invariant todo <= subPaths.Keys && forall p <- subPaths :: p !in todo ==> subPaths[p] != id
        decreases todo
      {
        var p :| p in todo;
        if subPaths[p] == id {
          return Some(p);
        }
        todo := todo - {p};
      }
      return None;
    }

    /** `newSub`: a further direct sub-assembly keeps all numbers, as long as
        there are fewer than 2^64 numbers in use. */
    method NewSub() returns (id: nat)
      requires Valid() && subs + |subPaths| < MAX_ID
      modifies this`subs
      ensures Valid() && id == old(subs) && subs == id + 1 && StandsFor(id, [id])
      ensures forall i, p :: old(StandsFor(i, p)) ==> StandsFor(i, p)
    {
      id := subs;
      subs := subs + 1;
    }
  }

  /** What can happen to an assembly between encoding and decoding a path. */
  datatype Action = Register(path: seq<nat>) | AddSub

  method Perform(r: Registry, action: Action, ghost id: nat, ghost path: seq<nat>)
    requires r.Valid() && r.StandsFor(id, path) && r.subs + |r.subPaths| < MAX_ID
    modifies r
    ensures r.Valid() && r.StandsFor(id, path) && r.subs + |r.subPaths| <= old(r.subs + |r.subPaths|) + 1
  {
    match action {
      case Register(p) => var _ := r.EncodeSubPath(p);
      case AddSub => var _ := r.NewSub();
    }
  }

  /** Whatever is registered or added in between, a number decodes to the path it
      was handed out for. */
  method EncodeThenDecode(r: Registry, path: seq<nat>, later: seq<Action>) returns (decoded: Option<seq<nat>>)
    requires r.Valid() && r.subs + |r.subPaths| + |later| + 1 < MAX_ID
    modifies r
    ensures decoded == Some(path) || decoded == None
    ensures decoded == None <==> path == [] || (|path| == 1 && path[0] >= old(r.subs))
  {
    var id := r.EncodeSubPath(path);
    if id == None {
      return None;
    }
    var i := 0;
    while i < |later|
      invariant 0 <= i <= |later| && r.Valid() && r.StandsFor(id.value, path)
      invariant r.subs + |r.subPaths| + (|later| - i) < MAX_ID
    {
      Perform(r, later[i], id.value, path);
      i := i + 1;
    }
    decoded := r.DecodeSubPath(id.value);
    assert r.StandsFor(id.value, path);
  }

  // ---------------------------------------------------------------- the list of paths of an assembly

  /** The list holds the entries of the map. */
  predicate Lists(list: seq<AssemblyModel.SubPath>, subPaths: map<seq<nat>, nat>) {
    (forall k :: 0 <= k < |list| ==> list[k].path in subPaths && subPaths[list[k].path] == list[k].id) &&
    (forall p <- subPaths :: exists k :: 0 <= k < |list| && list[k].path == p)
  }

  lemma {:induction false} FindPathFinds(list: seq<AssemblyModel.SubPath>, id: nat)
    ensures match AssemblyModel.FindPath(list, id)
            case None => forall k :: 0 <= k < |list| ==> list[k].id != id
            case Some(path) => exists k :: 0 <= k < |list| && list[k] == AssemblyModel.SubPath(path, id)
  {
    if list != [] {
      FindPathFinds(list[1..], id);
      if list[0].id == id {
        assert list[0] == AssemblyModel.SubPath(list[0].path, id);
      } else {
        match AssemblyModel.FindPath(list[1..], id)
        case None =>
          forall k | 0 <= k < |list| ensures list[k].id != id {
            if k > 0 {
              assert list[1..][k - 1] == list[k];
            }
          }
        case Some(path) =>
          var k :| 0 <= k < |list[1..]| && list[1..][k] == AssemblyModel.SubPath(path, id);
          assert list[k + 1] == AssemblyModel.SubPath(path, id);
      }
    }
  }

  /** The lookup of the assembler's model finds what the number stands for. */
  lemma FindPathDecodes(r: Registry, list: seq<AssemblyModel.SubPath>, id: nat, path: seq<nat>)
    requires r.Valid() && Lists(list, r.subPaths) && id >= r.subs
    ensures AssemblyModel.FindPath(list, id) == Some(path) <==> r.StandsFor(id, path)
  {
    FindPathFinds(list, id);
    if r.StandsFor(id, path) {
      var k :| 0 <= k < |list| && list[k].path == path;
    }
  }
}
