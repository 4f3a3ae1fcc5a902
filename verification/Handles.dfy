/**
  The cache of no-follow handles on a repository (src/apexcrew/adapters/repository/no_follow.py, lines 43-139). The
  backend answers anything or raises; what it hands out is live until it is closed.
*/
module Handles {
  import opened Wrappers

  type Handle = nat

  datatype Kind = FileNode | Directory

  datatype Identity = Identity(volume: int, fileId: int, kind: Kind)

  datatype Node = Node(handle: Handle, identity: Identity)

  type Parts = seq<string>

  datatype Error = InvalidRelativePath | StorageKindChanged | AncestorIdentityChanged | StorageIdentityChanged
      | BackendRaised

  function Parent(parts: Parts): Parts requires parts != [] { parts[..|parts| - 1] }

  function Name(parts: Parts): string requires parts != [] { parts[|parts| - 1] }

  /** No part is empty, a dot, two dots, or has a backslash. */
  predicate ValidParts(parts: Parts) {
    parts != [] && forall p | p in parts :: p !in {"", ".", ".."} && '\\' !in p
  }

  // ---------- The backend ----------

  datatype Reply = Opened(identity: Identity) | Missing | Raised

  class NoFollowBackend {
    const replies: nat -> Reply
    const roots: nat -> Result<seq<Identity>, ()>
    var clock: nat
    var next: Handle
    var live: set<Handle>
    /** The directory and the name that a handle was opened by. */
    ghost var origin: map<Handle, (Handle, string)>

    constructor (replies: nat -> Reply, roots: nat -> Result<seq<Identity>, ()>)
      ensures Valid() && live == {} && this.replies == replies && this.roots == roots
    {
      this.replies := replies;
      this.roots := roots;
      clock := 0;
      next := 0;
      live := {};
      origin := map[];
    }

    ghost predicate Valid()
      reads this
    {
      forall h | h in live || h in origin :: h < next
    }

    method OpenChildOrNone(parent: Node, name: string) returns (r: Result<Option<Node>, Error>)
      requires Valid() && parent.handle in live
      modifies this
      ensures Valid() && next >= old(next)
      ensures r.Ok? && r.value.Some? ==>
        var h := r.value.value.handle;
        h == old(next) && live == old(live) + {h} && origin == old(origin)[h := (parent.handle, name)]
      ensures !(r.Ok? && r.value.Some?) ==> live == old(live) && origin == old(origin)
      ensures clock == old(clock) + 1
      ensures match replies(old(clock))
        case Raised => r == Err(BackendRaised)
        case Missing => r == Ok(None)
        case Opened(identity) => r == Ok(Some(Node(old(next), identity))) && next == old(next) + 1
    {
      var reply := replies(clock);
      clock := clock + 1;
      match reply {
        case Raised => return Err(BackendRaised);
        case Missing => return Ok(None);
        case Opened(identity) =>
          var node := Node(next, identity);
          live := live + {next};
          origin := origin[next := (parent.handle, name)];
          next := next + 1;
          return Ok(Some(node));
      }
    }

    /** As before, but a missing child is an error. */
    method OpenChild(parent: Node, name: string) returns (r: Result<Node, Error>)
      requires Valid() && parent.handle in live
      modifies this
      ensures Valid() && next >= old(next)
      ensures r.Ok? ==>
        var h := r.value.handle;
        h == old(next) && live == old(live) + {h} && origin == old(origin)[h := (parent.handle, name)]
      ensures r.Err? ==> live == old(live) && origin == old(origin)
      ensures clock == old(clock) + 1
      ensures match replies(old(clock))
        case Opened(identity) => r == Ok(Node(old(next), identity)) && next == old(next) + 1
        case _ => r == Err(BackendRaised)
    {
      var child := OpenChildOrNone(parent, name);
      match child {
        case Err(e) => r := Err(e);
        case Ok(None) => r := Err(BackendRaised);
        case Ok(Some(node)) => r := Ok(node);
      }
    }

    /** The handles from the file system's root down to the repository; on failure nothing stays open. */
    method OpenRootChain() returns (r: Result<seq<Node>, Error>)
      requires Valid()
      modifies this
      ensures Valid() && next >= old(next) && origin == old(origin)
      ensures r.Ok? ==> r.value != [] && live == old(live) + HandlesOf(r.value) && Distinct(r.value)
      ensures r.Ok? ==> forall n | n in r.value :: old(next) <= n.handle < next
      ensures r.Err? ==> live == old(live) && r.error == BackendRaised
      ensures clock == old(clock) + 1
      ensures r.Ok? <==> roots(old(clock)).Ok? && roots(old(clock)).value != []
      ensures r.Ok? ==> Identities(r.value) == roots(old(clock)).value
    {
      var chain := roots(clock);
      clock := clock + 1;
      if chain.Err? || chain.value == [] { return Err(BackendRaised); }
      var nodes: seq<Node> := [];
      ghost var start := next;
      for i := 0 to |chain.value|
        invariant Valid() && next == start + i && origin == old(origin) && |nodes| == i && clock == old(clock) + 1
        invariant forall k | 0 <= k < i :: nodes[k].handle == start + k
        invariant forall k | 0 <= k < i :: nodes[k].identity == chain.value[k]
        invariant live == old(live) + HandlesOf(nodes)
      {
        nodes := nodes + [Node(next, chain.value[i])];
        live := live + {next};
        next := next + 1;
      }
      IdentitiesAre(nodes, chain.value);
      return Ok(nodes);
    }

    /** Only a live handle can be closed, and then it is live no more. */
    method Close(node: Node)
      requires Valid() && node.handle in live
      modifies this`live
      ensures Valid() && live == old(live) - {node.handle}
    {
      live := live - {node.handle};
    }
  }

  function HandlesOf(nodes: seq<Node>): set<Handle> { set n | n in nodes :: n.handle }

  predicate Distinct(nodes: seq<Node>) {
    forall i, j | 0 <= i < j < |nodes| :: nodes[i].handle != nodes[j].handle
  }

  // ---------- The tree ----------

  type Cache = map<Parts, Node>

  predicate PrefixClosed(nodes: Cache) {
    [] in nodes && forall parts | parts in nodes && parts != [] :: Parent(parts) in nodes
  }

  /** Different names have different handles. */
  predicate Injective(nodes: Cache) {
    forall a, b | a in nodes && b in nodes && nodes[a].handle == nodes[b].handle :: a == b
  }

  function CacheHandles(nodes: Cache): set<Handle> { set parts | parts in nodes :: nodes[parts].handle }

  lemma {:induction false} PrefixIsCached(nodes: Cache, parts: Parts, n: nat)
    requires PrefixClosed(nodes) && parts in nodes && n <= |parts|
    ensures parts[..n] in nodes
    decreases |parts| - n
  {
    if n == |parts| {
      assert parts[..n] == parts;
    } else {
      PrefixIsCached(nodes, parts, n + 1);
      assert Parent(parts[..n + 1]) == parts[..n];
    }
  }

  /** The cached node of a prefix of the path is not of the kind that belongs there. */
  predicate HasOtherKind(nodes: Cache, parts: Parts, n: nat, kind: Kind)
    requires n <= |parts|
  {
    parts[..n] in nodes && nodes[parts[..n]].identity.kind != KindAt(parts, n, kind)
  }

  class StableHandleTree {
    const backend: NoFollowBackend
    const rootChain: seq<Node>
    var nodes: Cache
    /** Handles that others have opened. */
    ghost const foreign: set<Handle>

    ghost predicate Valid()
      reads this, backend
    {
      && backend.Valid() && rootChain != [] && Distinct(rootChain)
      && PrefixClosed(nodes) && Injective(nodes) && nodes[[]] == rootChain[|rootChain| - 1]
      && (forall parts | parts in nodes && parts != [] :: nodes[parts].handle !in HandlesOf(rootChain))
      && backend.live == foreign + Owned() && foreign !! Owned()
    }

    /** The handles that this tree has to close. */
    ghost function Owned(): set<Handle>
      reads this
    {
      CacheHandles(nodes) + HandlesOf(rootChain)
    }

    /** The tree of an opened root chain. */
    constructor (backend: NoFollowBackend, rootChain: seq<Node>, ghost foreign: set<Handle>)
      requires backend.Valid() && rootChain != [] && Distinct(rootChain)
      requires backend.live == foreign + HandlesOf(rootChain) && foreign !! HandlesOf(rootChain)
      ensures Valid() && this.backend == backend && nodes.Keys == {[]} && this.foreign == foreign
    {
      this.backend := backend;
      this.rootChain := rootChain;
      this.foreign := foreign;
      nodes := map[[] := rootChain[|rootChain| - 1]];
    }

    /** What the backend replied to the last call since then. */
    ghost function LastReply(since: nat): Option<Reply>
      reads backend`clock
    {
      if backend.clock > since then Some(backend.replies(backend.clock - 1)) else None
    }

    /** The cached child of a cached parent, opened now if need be. */
    method Child(parts: Parts) returns (r: Result<Option<Node>, Error>)
      requires Valid() && parts != [] && Parent(parts) in nodes
      modifies this`nodes, backend
      ensures Valid()
      ensures r.Ok? && r.value.Some? ==> parts in nodes && nodes[parts] == r.value.value
      ensures r.Ok? && r.value.Some? ==>
        nodes == old(nodes) || (parts !in old(nodes) && nodes == old(nodes)[parts := r.value.value])
      ensures !(r.Ok? && r.value.Some?) ==> nodes == old(nodes) && parts !in nodes
      ensures r.Err? ==> r.error == BackendRaised && LastReply(old(backend.clock)) == Some(Raised)
      ensures r == Ok(None) ==> LastReply(old(backend.clock)) == Some(Missing)
      ensures backend.clock >= old(backend.clock)
    {
      if parts in nodes { return Ok(Some(nodes[parts])); }
      OwnedIsLive(Parent(parts));
      r := backend.OpenChildOrNone(nodes[Parent(parts)], Name(parts));
      if r.Ok? && r.value.Some? {
        ghost var before := nodes;
        nodes := nodes[parts := r.value.value];
        AddedHandles(before, parts, r.value.value);
      }
    }

    lemma {:induction false} OwnedIsLive(parts: Parts)
      requires Valid() && parts in nodes
      ensures nodes[parts].handle in backend.live
    {
      assert nodes[parts].handle in CacheHandles(nodes);
    }

    /** Why a walk fails: a malformed path, a call that raised, or a cached node on the way of the wrong kind. */
    ghost predicate FailedWalk(parts: Parts, kind: Option<Kind>, error: Error, last: Option<Reply>)
      reads this
    {
      match error
      case InvalidRelativePath => !ValidParts(parts)
      case BackendRaised => last == Some(Raised)
      case StorageKindChanged =>
        kind.Some? && exists n :: 0 < n <= |parts| && HasOtherKind(nodes, parts, n, kind.value)
      case _ => false
    }

    /**
      The walk of `open`, `try_open` and `try_open_any`: every prefix of the path is cached on the way. A kind that
      was asked for is checked after the node is cached, so that it is closed with the tree.
    */
    method Walk(parts: Parts, kind: Option<Kind>) returns (r: Result<Option<Node>, Error>)
      requires Valid()
      modifies this`nodes, backend
      ensures Valid()
      ensures Grown(old(nodes), nodes, parts)
      ensures r == Err(InvalidRelativePath) <==> !ValidParts(parts)
      ensures !ValidParts(parts) ==> nodes == old(nodes)
      ensures r == Ok(None) ==> LastReply(old(backend.clock)) == Some(Missing)
      ensures r.Err? ==> FailedWalk(parts, kind, r.error, LastReply(old(backend.clock)))
      ensures r.Ok? && r.value.Some? ==> parts in nodes && nodes[parts] == r.value.value
      ensures r.Ok? && r.value.Some? && kind.Some? ==> KindsAlong(nodes, parts, |parts|, kind.value)
    {
      if !ValidParts(parts) { return Err(InvalidRelativePath); }
      var last := nodes[[]];
      for index := 0 to |parts|
        invariant Valid() && parts[..index] in nodes && nodes[parts[..index]] == last
        invariant Grown(old(nodes), nodes, parts) && backend.clock >= old(backend.clock)
        invariant kind.Some? ==> KindsAlong(nodes, parts, index, kind.value)
      {
        ghost var before := nodes;
        var key := parts[..index + 1];
        assert Parent(key) == parts[..index];
        var child := Child(key);
        if child.Err? { return Err(child.error); }
        if child.value == None { return Ok(None); }
        last := child.value.value;
        GrownStep(old(nodes), before, nodes, parts, index);
        if kind.Some? && last.identity.kind != KindAt(parts, index + 1, kind.value) {
          assert HasOtherKind(nodes, parts, index + 1, kind.value);
        }
        if kind.Some? {
          KindsStep(before, nodes, parts, index, kind.value);
          if last.identity.kind != KindAt(parts, index + 1, kind.value) { return Err(StorageKindChanged); }
        }
      }
      assert parts[..|parts|] == parts;
      return Ok(Some(last));
    }

    /** `open`: a missing child is an error. */
    method Open(parts: Parts, kind: Kind) returns (r: Result<Node, Error>)
      requires Valid()
      modifies this`nodes, backend
      ensures Valid() && Grown(old(nodes), nodes, parts)
      ensures r == Err(InvalidRelativePath) <==> !ValidParts(parts)
      ensures r.Err? ==>
        || FailedWalk(parts, Some(kind), r.error, LastReply(old(backend.clock)))
        || (r.error == BackendRaised && LastReply(old(backend.clock)) == Some(Missing))
      ensures r.Ok? ==> parts in nodes && nodes[parts] == r.value && KindsAlong(nodes, parts, |parts|, kind)
    {
      var node := Walk(parts, Some(kind));
      match node {
        case Err(e) => r := Err(e);
        case Ok(None) => r := Err(BackendRaised);
        case Ok(Some(n)) => r := Ok(n);
      }
    }

    /** `try_open`: a missing child is no error. */
    method TryOpen(parts: Parts, kind: Kind) returns (r: Result<Option<Node>, Error>)
      requires Valid()
      modifies this`nodes, backend
      ensures Valid() && Grown(old(nodes), nodes, parts)
      ensures r == Err(InvalidRelativePath) <==> !ValidParts(parts)
      ensures r.Err? ==> FailedWalk(parts, Some(kind), r.error, LastReply(old(backend.clock)))
      ensures r == Ok(None) ==> LastReply(old(backend.clock)) == Some(Missing)
      ensures r.Ok? && r.value.Some? ==>
        parts in nodes && nodes[parts] == r.value.value && KindsAlong(nodes, parts, |parts|, kind)
    {
      r := Walk(parts, Some(kind));
    }

    /** `try_open_any`: of whatever kind. */
    method TryOpenAny(parts: Parts) returns (r: Result<Option<Node>, Error>)
      requires Valid()
      modifies this`nodes, backend
      ensures Valid() && Grown(old(nodes), nodes, parts)
      ensures r == Err(InvalidRelativePath) <==> !ValidParts(parts)
      ensures r.Err? ==> FailedWalk(parts, None, r.error, LastReply(old(backend.clock)))
      ensures r == Ok(None) ==> LastReply(old(backend.clock)) == Some(Missing)
      ensures r.Ok? && r.value.Some? ==> parts in nodes && nodes[parts] == r.value.value
    {
      r := Walk(parts, None);
    }

    // ---------- Probing ----------

    /**
      Why a name cannot be probed: the last call did not open it, or what it opened by this name in the directory
      that was probed as its parent has another identity than the cached node.
    */
    ghost predicate ProbeFailed(error: Error, parts: Parts, parent: Node)
      reads this`nodes, backend`clock, backend`next, backend`origin
    {
      && backend.clock > 0 && parts in nodes && parts != []
      && match backend.replies(backend.clock - 1)
         case Opened(identity) =>
           && error == StorageIdentityChanged && identity != nodes[parts].identity
           && backend.next > 0 && backend.next - 1 in backend.origin
           && backend.origin[backend.next - 1] == (parent.handle, Name(parts))
         case _ => error == BackendRaised
    }

    /** Probe one more name, below a parent that has been probed. */
    method ProbeName(parts: Parts, held: seq<Node>, probes: Cache, ghost before: set<Handle>)
      returns (r: Result<(), Error>, held': seq<Node>, probes': Cache)
      requires backend.Valid() && HeldBeside(backend.live, held, before) && AllHeld(probes, held)
        && Faithful(nodes, backend.origin, probes)
      requires parts in nodes && parts != [] && parts !in probes && Parent(parts) in probes
      modifies backend
      ensures backend.Valid() && HeldBeside(backend.live, held', before) && AllHeld(probes', held')
      ensures r.Ok? ==>
        Faithful(nodes, backend.origin, probes') && probes'.Keys == probes.Keys + {parts} && probes'[[]] == probes[[]]
      ensures r.Err? ==> ProbeFailed(r.error, parts, probes[Parent(parts)]) && probes' == probes
      ensures backend.clock == old(backend.clock) + 1
    {
      var parent := probes[Parent(parts)];
      HeldAreLive(backend.live, held, before, probes);
      ghost var live, origin, next := backend.live, backend.origin, backend.next;
      var child := backend.OpenChild(parent, Name(parts));
      if child.Err? { return Err(child.error), held, probes; }
      var probe := child.value;
      HeldStep(live, held, before, probe);
      held' := held + [probe];
      assert forall k | k in probes :: probes[k] in held && probes[k] in held';
      if probe.identity != nodes[parts].identity { return Err(StorageIdentityChanged), held', probes; }
      FaithfulStep(nodes, origin, probes, parts, probe, next);
      return Ok(()), held', probes[parts := probe];
    }

    /** The name could not be probed below the probe of its parent, which had its cached identity. */
    ghost predicate NameFailed(error: Error, failed: Parts, probes: Cache)
      reads this`nodes, backend`clock, backend`next, backend`origin
    {
      failed in nodes && failed != [] && Parent(failed) in probes && ProbeFailed(error, failed, probes[Parent(failed)])
    }

    /** All names of the cache but those still to do are probed, from the top down. */
    ghost predicate Probing(held: seq<Node>, probes: Cache, todo: set<Parts>, top: Node, before: set<Handle>)
      reads this`nodes, backend
    {
      && backend.Valid() && HeldBeside(backend.live, held, before) && AllHeld(probes, held)
      && Faithful(nodes, backend.origin, probes) && probes[[]] == top
      && todo <= nodes.Keys - {[]} && probes.Keys == nodes.Keys - todo
    }

    /** Probe a shortest name that is still to do. */
    method ProbeNext(held: seq<Node>, probes: Cache, todo: set<Parts>, ghost top: Node, ghost before: set<Handle>)
      returns (r: Result<(), Error>, held': seq<Node>, probes': Cache, parts: Parts)
      requires Probing(held, probes, todo, top, before) && todo != {} && PrefixClosed(nodes)
      modifies backend
      ensures parts in todo && backend.clock >= old(backend.clock)
      ensures r.Ok? ==> Probing(held', probes', todo - {parts}, top, before)
      ensures r.Err? ==>
        backend.Valid() && HeldBeside(backend.live, held', before) && NameFailed(r.error, parts, probes')
    {
      parts := PickShortest(todo);
      ParentIsProbed(nodes, probes, todo, parts);
      ghost var parent := probes[Parent(parts)];
      r, held', probes' := ProbeName(parts, held, probes, before);
      if r.Err? { assert probes'[Parent(parts)] == parent; }
    }

    /** Probe every name of the cache, shorter names first. */
    method ProbeNames(chain: seq<Node>, ghost before: set<Handle>)
      returns (r: Result<(), Error>, held: seq<Node>, probes: Cache, ghost failed: Parts)
      requires backend.Valid() && HeldBeside(backend.live, chain, before) && chain != [] && PrefixClosed(nodes)
      modifies backend
      ensures backend.Valid() && HeldBeside(backend.live, held, before)
      ensures r.Ok? ==>
        probes.Keys == nodes.Keys && Faithful(nodes, backend.origin, probes) && probes[[]] == chain[|chain| - 1]
      ensures r.Err? ==> NameFailed(r.error, failed, probes)
      ensures backend.clock >= old(backend.clock)
    {
      failed := [];
      held, probes := chain, map[[] := chain[|chain| - 1]];
      var todo := nodes.Keys - {[]};
      while todo != {}
        invariant Probing(held, probes, todo, chain[|chain| - 1], before) && backend.clock >= old(backend.clock)
        decreases |todo|
      {
        var parts;
        r, held, probes, parts := ProbeNext(held, probes, todo, chain[|chain| - 1], before);
        if r.Err? {
          failed := parts;
          return;
        }
        todo := todo - {parts};
      }
      r := Ok(());
    }

    /**
      `assert_name_bindings`: it succeeds only if every cached name, opened anew from the root down, still has the
      cached identity; it fails only if a call did not open what it was asked for, or found another identity; and
      whether it succeeds or fails, each probe is closed once and nothing else is.
    */
    method AssertNameBindings()
      returns (r: Result<(), Error>, ghost chain: seq<Node>, ghost probes: Cache, ghost failed: Parts)
      requires Valid()
      modifies backend
      ensures Valid() && backend.live == old(backend.live)
      ensures r.Ok? ==> probes.Keys == nodes.Keys && Faithful(nodes, backend.origin, probes)
      ensures r.Ok? ==> Identities(chain) == Identities(rootChain) && chain != [] && probes[[]] == chain[|chain| - 1]
      ensures var root := backend.roots(old(backend.clock));
        if root.Err? || root.value == [] then r == Err(BackendRaised)
        else if root.value != Identities(rootChain) then r == Err(AncestorIdentityChanged)
        else r.Err? ==> NameFailed(r.error, failed, probes)
    {
      chain, probes, failed := [], map[], [];
      ghost var before := backend.live;
      var root := backend.OpenRootChain();
      if root.Err? { return Err(root.error), chain, probes, failed; }
      chain := root.value;
      var held;
      r, held, probes, failed := ProbeChain(root.value, before);
      CloseAll(held);
    }

    /** Compare the root chain, then probe the names below it. */
    method ProbeChain(chain: seq<Node>, ghost before: set<Handle>)
      returns (r: Result<(), Error>, held: seq<Node>, ghost probes: Cache, ghost failed: Parts)
      requires backend.Valid() && HeldBeside(backend.live, chain, before) && chain != [] && PrefixClosed(nodes)
      requires rootChain != [] && nodes[[]] == rootChain[|rootChain| - 1]
      modifies backend
      ensures backend.Valid() && HeldBeside(backend.live, held, before)
      ensures r.Ok? ==> probes.Keys == nodes.Keys && Faithful(nodes, backend.origin, probes)
      ensures r.Ok? ==> Identities(chain) == Identities(rootChain) && probes[[]] == chain[|chain| - 1]
      ensures Identities(chain) != Identities(rootChain) ==> r == Err(AncestorIdentityChanged)
      ensures Identities(chain) == Identities(rootChain) && r.Err? ==> NameFailed(r.error, failed, probes)
    {
      held, probes, failed := chain, map[], [];
      if Identities(chain) != Identities(rootChain) { return Err(AncestorIdentityChanged), held, probes, failed; }
      SameLast(chain, rootChain);
      var found: Cache;
      r, held, found, failed := ProbeNames(chain, before);
      probes := found;
    }

    /** `close`: each handle that the tree owns is closed once, and no other. */
    method Close()
      requires Valid()
      modifies backend`live
      ensures backend.Valid() && backend.live == foreign
    {
      var owned := OwnedNodes();
      CloseAll(owned);
    }

    /** The cached nodes, every handle once. */
    method CachedNodes() returns (owned: seq<Node>)
      requires Injective(nodes)
      ensures Distinct(owned) && HandlesOf(owned) == CacheHandles(nodes)
    {
      owned := [];
      var todo := nodes.Keys;
      ghost var done: Cache := map[];
      while todo != {}
        invariant todo <= nodes.Keys && done.Keys == nodes.Keys - todo && forall k | k in done ::
          k in nodes && done[k] == nodes[k]
        invariant Distinct(owned) && HandlesOf(owned) == CacheHandles(done)
        decreases |todo|
      {
        var parts :| parts in todo;
        NotYetOwned(nodes, done, owned, parts);
        owned := owned + [nodes[parts]];
        todo := todo - {parts};
        done := done[parts := nodes[parts]];
      }
      assert done == nodes;
    }

    /** The cached nodes and the root chain, every handle once. */
    method OwnedNodes() returns (owned: seq<Node>)
      requires Valid()
      ensures Distinct(owned) && HandlesOf(owned) == Owned()
    {
      owned := CachedNodes();
      for i := 0 to |rootChain|
        invariant Distinct(owned) && HandlesOf(owned) == CacheHandles(nodes) + HandlesOf(rootChain[..i])
      {
        assert rootChain[..i + 1] == rootChain[..i] + [rootChain[i]];
        HandlesOfLonger(rootChain[..i], rootChain[i]);
        if rootChain[i].handle !in HandlesOf(owned) {
          DistinctLonger(owned, rootChain[i]);
          owned := owned + [rootChain[i]];
        }
      }
      assert rootChain[..|rootChain|] == rootChain;
    }

    /** Close some live handles, the last one first. */
    method CloseAll(held: seq<Node>)
      requires backend.Valid() && Distinct(held) && HandlesOf(held) <= backend.live
      modifies backend`live
      ensures backend.Valid() && backend.live == old(backend.live) - HandlesOf(held)
    {
      var n := |held|;
      assert held[..n] == held;
      while n > 0
        invariant n <= |held| && backend.Valid()
        invariant backend.live == old(backend.live) - HandlesOf(held[n..])
        invariant HandlesOf(held[..n]) <= backend.live
      {
        CloseStep(held, n);
        n := n - 1;
        backend.Close(held[n]);
      }
      assert held[0..] == held;
    }
  }

  /** The handles held are live, each once, beside those from before, and no others are. */
  ghost predicate HeldBeside(live: set<Handle>, held: seq<Node>, before: set<Handle>) {
    Distinct(held) && HandlesOf(held) !! before && live == before + HandlesOf(held)
  }

  ghost predicate AllHeld(probes: Cache, held: seq<Node>) { forall k | k in probes :: probes[k] in held }

  /** Each probe was opened by its own name from the probe of its parent, and has the identity in the cache. */
  ghost predicate Faithful(nodes: Cache, origin: map<Handle, (Handle, string)>, probes: Cache) {
    [] in probes && forall k | k in probes && k != [] :: FaithfulAt(nodes, origin, probes, k)
  }

  ghost predicate FaithfulAt(nodes: Cache, origin: map<Handle, (Handle, string)>, probes: Cache, k: Parts)
    requires k in probes && k != []
  {
    && Parent(k) in probes && k in nodes && probes[k].identity == nodes[k].identity
    && probes[k].handle in origin && origin[probes[k].handle] == (probes[Parent(k)].handle, Name(k))
  }

  lemma {:induction false} HeldAreLive(live: set<Handle>, held: seq<Node>, before: set<Handle>, probes: Cache)
    requires HeldBeside(live, held, before) && AllHeld(probes, held)
    ensures forall k | k in probes :: probes[k].handle in live
  {
    forall k | k in probes ensures probes[k].handle in live { assert probes[k].handle in HandlesOf(held); }
  }

  lemma {:induction false} HeldStep(live: set<Handle>, held: seq<Node>, before: set<Handle>, node: Node)
    requires HeldBeside(live, held, before) && node.handle !in live
    ensures HeldBeside(live + {node.handle}, held + [node], before)
  {
    HandlesOfLonger(held, node);
    var longer := held + [node];
    forall i, j | 0 <= i < j < |longer| ensures longer[i].handle != longer[j].handle {
      assert held[i] in held && held[i].handle in HandlesOf(held);
    }
  }

  lemma {:induction false} FaithfulStep(nodes: Cache, origin: map<Handle, (Handle, string)>, probes: Cache,
      parts: Parts, probe: Node, next: Handle)
    requires Faithful(nodes, origin, probes) && parts in nodes && parts != [] && parts !in probes
      && Parent(parts) in probes
    requires probe.identity == nodes[parts].identity && probe.handle == next && forall h | h in origin :: h < next
    ensures Faithful(nodes, origin[next := (probes[Parent(parts)].handle, Name(parts))], probes[parts := probe])
  {
    var origin', probes' := origin[next := (probes[Parent(parts)].handle, Name(parts))], probes[parts := probe];
    assert |Parent(parts)| == |parts| - 1;
    forall k | k in probes' && k != [] ensures FaithfulAt(nodes, origin', probes', k) {
      if k != parts { assert FaithfulAt(nodes, origin, probes, k); }
    }
  }

  /** Nothing was dropped or replaced, and only prefixes of the path were added. */
  ghost predicate Grown(a: Cache, b: Cache, parts: Parts) {
    && (forall k | k in a :: k in b && b[k] == a[k])
    && (forall k | k in b :: k in a || k <= parts)
  }

  function KindAt(parts: Parts, n: nat, kind: Kind): Kind { if n == |parts| then kind else Directory }

  /** The first `n` names of a path are directories, and the whole path is of the kind. */
  ghost predicate KindsAlong(nodes: Cache, parts: Parts, n: nat, kind: Kind)
    requires n <= |parts|
  {
    forall m | 0 < m <= n :: parts[..m] in nodes && nodes[parts[..m]].identity.kind == KindAt(parts, m, kind)
  }

  lemma {:induction false} GrownStep(a: Cache, b: Cache, c: Cache, parts: Parts, index: nat)
    requires index < |parts| && Grown(a, b, parts) && parts[..index + 1] in c
    requires c == b || (parts[..index + 1] !in b && c == b[parts[..index + 1] := c[parts[..index + 1]]])
    ensures Grown(a, c, parts)
  {}

  lemma {:induction false} KindsStep(b: Cache, c: Cache, parts: Parts, index: nat, kind: Kind)
    requires index < |parts| && KindsAlong(b, parts, index, kind) && parts[..index + 1] in c
    requires c == b || (parts[..index + 1] !in b && c == b[parts[..index + 1] := c[parts[..index + 1]]])
    ensures c[parts[..index + 1]].identity.kind == KindAt(parts, index + 1, kind) ==>
      KindsAlong(c, parts, index + 1, kind)
  {
    forall m | 0 < m <= index ensures parts[..m] in c && c[parts[..m]].identity.kind == KindAt(parts, m, kind) {
      assert parts[..m] in b;
      assert |parts[..m]| == m;
    }
  }

  lemma {:induction false} AddedHandles(before: Cache, parts: Parts, node: Node)
    requires parts !in before
    ensures CacheHandles(before[parts := node]) == CacheHandles(before) + {node.handle}
  {
    var after := before[parts := node];
    forall h | h in CacheHandles(before) + {node.handle} ensures h in CacheHandles(after) {
      if h == node.handle {
        assert after[parts].handle == h;
      } else {
        var k :| k in before && before[k].handle == h;
        assert after[k].handle == h;
      }
    }
  }

  lemma {:induction false} HandlesOfLonger(nodes: seq<Node>, node: Node)
    ensures HandlesOf(nodes + [node]) == HandlesOf(nodes) + {node.handle}
  {
    var longer := nodes + [node];
    forall h | h in HandlesOf(nodes) + {node.handle} ensures h in HandlesOf(longer) {
      if h == node.handle {
        assert longer[|nodes|].handle == h;
      } else {
        var n :| n in nodes && n.handle == h;
        assert n in longer;
      }
    }
  }

  function Identities(nodes: seq<Node>): seq<Identity> {
    if nodes == [] then [] else Identities(nodes[..|nodes| - 1]) + [nodes[|nodes| - 1].identity]
  }

  lemma {:induction false} IdentitiesAre(nodes: seq<Node>, identities: seq<Identity>)
    requires |nodes| == |identities| && forall k | 0 <= k < |nodes| :: nodes[k].identity == identities[k]
    ensures Identities(nodes) == identities
  {
    if nodes != [] {
      var n := |nodes| - 1;
      IdentitiesAre(nodes[..n], identities[..n]);
      assert identities == identities[..n] + [identities[n]];
    }
  }

  lemma {:induction false} SameLast(a: seq<Node>, b: seq<Node>)
    requires Identities(a) == Identities(b) && b != []
    ensures a != [] && a[|a| - 1].identity == b[|b| - 1].identity
  {
    var x, y := Identities(a), Identities(b);
    assert x[|x| - 1] == y[|y| - 1];
  }

  ghost predicate Shortest(parts: Parts, names: set<Parts>) {
    parts in names && forall other: Parts {:trigger other in names} | other in names :: |parts| <= |other|
  }

  lemma {:induction false} ParentIsProbed(nodes: Cache, probes: Cache, todo: set<Parts>, parts: Parts)
    requires PrefixClosed(nodes) && todo <= nodes.Keys - {[]} && probes.Keys == nodes.Keys - todo
      && Shortest(parts, todo)
    ensures parts in nodes && parts != [] && parts !in probes && Parent(parts) in probes
  {
    assert parts in nodes.Keys;
    assert |Parent(parts)| < |parts|;
  }

  /** Some shortest name: the sorted order of the names, up to the order of equally long ones. */
  method PickShortest(names: set<Parts>) returns (parts: Parts)
    requires names != {}
    ensures Shortest(parts, names)
  {
    parts :| parts in names;
    var rest := names - {parts};
    ghost var seen := {parts};
    while rest != {}
      invariant names == rest + seen && Shortest(parts, seen)
      decreases |rest|
    {
      var other :| other in rest;
      if |other| < |parts| { parts := other; }
      rest := rest - {other};
      seen := seen + {other};
    }
    assert seen == names;
  }

  /** The last of some distinct handles is not among the others. */
  lemma {:induction false} CloseStep(held: seq<Node>, n: nat)
    requires 0 < n <= |held| && Distinct(held)
    ensures HandlesOf(held[n - 1..]) == HandlesOf(held[n..]) + {held[n - 1].handle}
    ensures HandlesOf(held[..n]) == HandlesOf(held[..n - 1]) + {held[n - 1].handle}
    ensures held[n - 1].handle !in HandlesOf(held[..n - 1])
  {
    HandlesOfLonger(held[..n - 1], held[n - 1]);
    assert held[..n] == held[..n - 1] + [held[n - 1]];
    assert held[n - 1..] == [held[n - 1]] + held[n..];
    var later := HandlesOf(held[n..]) + {held[n - 1].handle};
    forall h | h in later ensures h in HandlesOf(held[n - 1..]) {
      if h == held[n - 1].handle {
        assert held[n - 1] in held[n - 1..];
      } else {
        var node :| node in held[n..] && node.handle == h;
        assert node in held[n - 1..];
      }
    }
  }

  lemma {:induction false} DistinctLonger(nodes: seq<Node>, node: Node)
    requires Distinct(nodes) && node.handle !in HandlesOf(nodes)
    ensures Distinct(nodes + [node]) && HandlesOf(nodes + [node]) == HandlesOf(nodes) + {node.handle}
  {
    HandlesOfLonger(nodes, node);
    forall i | 0 <= i < |nodes| ensures nodes[i].handle != node.handle { assert nodes[i] in nodes; }
  }

  lemma {:induction false} NotYetOwned(nodes: Cache, done: Cache, owned: seq<Node>, parts: Parts)
    requires Injective(nodes) && parts in nodes && parts !in done && forall k | k in done ::
      k in nodes && done[k] == nodes[k]
    requires Distinct(owned) && HandlesOf(owned) == CacheHandles(done)
    ensures Distinct(owned + [nodes[parts]]) && HandlesOf(owned + [nodes[parts]]) ==
      CacheHandles(done[parts := nodes[parts]])
  {
    AddedHandles(done, parts, nodes[parts]);
    forall k | k in done ensures done[k].handle != nodes[parts].handle {
      assert k in nodes && done[k] == nodes[k];
    }
    DistinctLonger(owned, nodes[parts]);
  }
}
