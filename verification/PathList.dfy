/** Paths as linked lists of components, relinked in place. */
module PathList {
  import opened PathNames
  import opened Wrappers

  /**
   * One component. `next` is relinked in place; `freed` records that the node has been given back, so
   * that using or freeing it again would be a precondition failure.
   */
  class PathEnt {
    const name: string
    var next: PathEnt?
    ghost var freed: bool

    constructor (name: string)
      ensures this.name == name && next == null && !freed
    {
      this.name := name;
      this.next := null;
      this.freed := false;
    }
  }

  function NamesOf(nodes: seq<PathEnt>): (r: seq<string>)
    ensures |r| == |nodes| && forall i :: 0 <= i < |r| ==> r[i] == nodes[i].name
  {
    if nodes == [] then [] else NamesOf(nodes[..|nodes| - 1]) + [nodes[|nodes| - 1].name]
  }

  function NodeAt(nodes: seq<PathEnt>, i: nat): PathEnt? {
    if i < |nodes| then nodes[i] else null
  }

  /** From `ent` on, the live nodes of `nodes` from position `i` are linked in order and then end. */
  ghost predicate Tail(ent: PathEnt?, nodes: seq<PathEnt>, i: nat)
    reads nodes
  {
    && ent == NodeAt(nodes, i)
    && (forall j {:trigger nodes[j].next} :: i <= j < |nodes| ==> nodes[j].next == NodeAt(nodes, j + 1))
    && (forall j {:trigger nodes[j].freed} :: i <= j < |nodes| ==> !nodes[j].freed)
  }

  /** `head` starts an acyclic list of exactly these live nodes, in this order. */
  ghost predicate IsList(head: PathEnt?, nodes: seq<PathEnt>)
    reads nodes
  {
    Distinct(nodes) && Tail(head, nodes, 0)
  }

  function Below(s: seq<PathEnt>, k: nat): PathEnt? {
    if 0 < k <= |s| then s[k - 1] else null
  }

  /** `top` is the top of a stack of live nodes linked downwards; the bottom is `s[0]`. */
  ghost predicate IsStack(top: PathEnt?, s: seq<PathEnt>)
    reads s
  {
    && top == Below(s, |s|)
    && (forall k {:trigger s[k].next} :: 0 <= k < |s| ==> s[k].next == Below(s, k))
    && (forall k {:trigger s[k].freed} :: 0 <= k < |s| ==> !s[k].freed)
  }

  /** Walks a list, giving back every node. */
  method FreePathEnt(entity: PathEnt?, ghost nodes: seq<PathEnt>)
    requires IsList(entity, nodes)
    modifies nodes
    ensures forall n :: n in nodes ==> n.freed && n.next == null
  {
    var ent := entity;
    ghost var i := 0;
    while ent != null
      invariant i <= |nodes| && Tail(ent, nodes, i)
      invariant forall j :: 0 <= j < i ==> nodes[j].freed && nodes[j].next == null
      decreases |nodes| - i
    {
      var next := ent.next;
      ent.next := null;
      ent.freed := true;
      ent := next;
      i := i + 1;
    }
  }

  /** Giving back a node that has been unlinked. */
  method FreeOne(entity: PathEnt)
    requires entity.next == null && !entity.freed
    modifies entity
    ensures entity.freed
  {
    FreePathEnt(entity, [entity]);
    assert [entity][0] == entity;
  }

  function Pick(nodes: seq<PathEnt>, picks: seq<nat>): (r: seq<PathEnt>)
    requires forall i :: 0 <= i < |picks| ==> picks[i] < |nodes|
    ensures |r| == |picks| && forall i :: 0 <= i < |r| ==> r[i] == nodes[picks[i]]
  {
    if picks == [] then [] else Pick(nodes, picks[..|picks| - 1]) + [nodes[picks[|picks| - 1]]]
  }

  /** The nodes on the resolution stack after the first `i` components. */
  function StackOf(nodes: seq<PathEnt>, i: nat): (r: seq<PathEnt>)
    requires i <= |nodes|
  {
    Pick(nodes[..i], Survivors(NamesOf(nodes[..i])))
  }

  /** How one component changes the stack. */
  lemma StackStep(nodes: seq<PathEnt>, i: nat)
    requires i < |nodes|
    ensures var s, name := StackOf(nodes, i), nodes[i].name;
            StackOf(nodes, i + 1) ==
            if name == ".." then DropTop(s)
            else if name == "." then s
            else s + [nodes[i]]
  {
    var names, more := NamesOf(nodes[..i]), NamesOf(nodes[..i + 1]);
    assert more[..i] == names && more[i] == nodes[i].name;
    assert nodes[..i + 1] == nodes[..i] + [nodes[i]];
  }

  /** The stack holds earlier segments only, without repetition. */
  ghost predicate Earlier(nodes: seq<PathEnt>, i: nat, s: seq<PathEnt>)
    requires i <= |nodes|
  {
    && Distinct(s)
    && (forall n :: n in s ==> n in nodes[..i] && !IsDots(n.name))
    && forall j :: i <= j < |nodes| ==> nodes[j] !in nodes[..i]
  }

  lemma StackIsEarlier(nodes: seq<PathEnt>, i: nat)
    requires i <= |nodes| && Distinct(nodes)
    ensures Earlier(nodes, i, StackOf(nodes, i))
  {
    NormalizeIdempotent(NamesOf(nodes[..i]));
    var names := NamesOf(nodes[..i]);
    SurvivorsAreNormal(names);
    var picks, s := Survivors(names), StackOf(nodes, i);
    forall j, k | 0 <= j < k < |s|
      ensures s[j] != s[k]
    {
      assert picks[j] < picks[k] < i;
    }
  }

  /** Of the first `i` nodes, those not on the stack have been freed, all but the ".." nodes themselves. */
  ghost predicate OthersFreed(nodes: seq<PathEnt>, i: nat, s: seq<PathEnt>)
    requires i <= |nodes|
    reads nodes
  {
    forall n :: n in nodes[..i] && n !in s ==> (n.freed <==> n.name != "..")
  }

  /** The pushing loop has reached component `i` with `s` on the stack. */
  ghost predicate Pushing(nodes: seq<PathEnt>, i: nat, ent: PathEnt?, stack: PathEnt?, s: seq<PathEnt>)
    requires i <= |nodes|
    reads nodes, s
  {
    Distinct(nodes) && Tail(ent, nodes, i) && IsStack(stack, s) && OthersFreed(nodes, i, s)
  }

  function DropTop(s: seq<PathEnt>): seq<PathEnt> {
    if s == [] then [] else s[..|s| - 1]
  }

  /** A ".." discards the top of the stack, if there is one. */
  method PopTop(stack: PathEnt?, ghost s: seq<PathEnt>) returns (rest: PathEnt?)
    requires IsStack(stack, s) && Distinct(s)
    modifies stack
    ensures IsStack(rest, DropTop(s))
    ensures s != [] ==> s[|s| - 1].freed
  {
    rest := stack;
    if rest != null {
      var top := rest;
      assert top == s[|s| - 1];
      rest := top.next;
      top.next := null;
      ghost var below := DropTop(s);
      assert forall k :: 0 <= k < |below| ==> below[k] == s[k] && below[k] != top;
      assert IsStack(rest, below);
      FreeOne(top);
    }
  }

  /** A segment goes on top of the stack. */
  method PushEnt(ent: PathEnt, stack: PathEnt?, ghost s: seq<PathEnt>)
    requires IsStack(stack, s) && ent !in s && !ent.freed
    modifies ent`next
    ensures IsStack(ent, s + [ent])
  {
    ent.next := stack;
    assert forall k :: 0 <= k < |s| ==> s[k] in s;
  }

  /** A ".." drops the top of the stack and is itself left behind. */
  method PopStep(ghost nodes: seq<PathEnt>, ghost i: nat, ent: PathEnt, stack: PathEnt?, ghost s: seq<PathEnt>)
    returns (rest: PathEnt?)
    requires i < |nodes| && Pushing(nodes, i, ent, stack, s) && Earlier(nodes, i, s) && ent.name == ".."
    modifies nodes
    ensures Pushing(nodes, i + 1, old(ent.next), rest, DropTop(s))
  {
    assert nodes[..i + 1] == nodes[..i] + [nodes[i]];
    assert stack != null ==> stack in s;
    rest := PopTop(stack, s);
    assert OthersFreed(nodes, i + 1, DropTop(s));
  }

  /** A "." is unlinked and given back. */
  method DropStep(ghost nodes: seq<PathEnt>, ghost i: nat, ent: PathEnt, ghost stack: PathEnt?, ghost s: seq<PathEnt>)
    requires i < |nodes| && Pushing(nodes, i, ent, stack, s) && Earlier(nodes, i, s) && ent.name == "."
    modifies nodes
    ensures Pushing(nodes, i + 1, old(ent.next), stack, s)
  {
    assert nodes[..i + 1] == nodes[..i] + [nodes[i]];
    ent.next := null;
    FreeOne(ent);
  }

  /** Any other name goes on the stack. */
  method PushStep(ghost nodes: seq<PathEnt>, ghost i: nat, ent: PathEnt, stack: PathEnt?, ghost s: seq<PathEnt>)
    requires i < |nodes| && Pushing(nodes, i, ent, stack, s) && Earlier(nodes, i, s)
    modifies nodes
    ensures Pushing(nodes, i + 1, old(ent.next), ent, s + [ent])
  {
    assert nodes[..i + 1] == nodes[..i] + [nodes[i]];
    PushEnt(ent, stack, s);
  }

  /** One pass of the pushing loop. */
  method PushOne(ghost nodes: seq<PathEnt>, ghost i: nat, ent: PathEnt, stack: PathEnt?, ghost s: seq<PathEnt>)
    returns (nextEnt: PathEnt?, stack': PathEnt?, ghost s': seq<PathEnt>)
    requires i < |nodes| && Pushing(nodes, i, ent, stack, s) && s == StackOf(nodes, i)
    modifies nodes
    ensures s' == StackOf(nodes, i + 1) && Pushing(nodes, i + 1, nextEnt, stack', s')
  {
    StackStep(nodes, i);
    StackIsEarlier(nodes, i);
    s' := StackOf(nodes, i + 1);
    nextEnt := ent.next;
    stack' := stack;
    if ent.name == ".." {
      stack' := PopStep(nodes, i, ent, stack, s);
    } else if ent.name == "." {
      DropStep(nodes, i, ent, stack, s);
    } else {
      PushStep(nodes, i, ent, stack, s);
      stack' := ent;
    }
  }

  /** The whole pushing loop. */
  method PushAll(ghost nodes: seq<PathEnt>, entities: PathEnt?) returns (stack: PathEnt?, ghost s: seq<PathEnt>)
    requires IsList(entities, nodes)
    modifies nodes
    ensures s == StackOf(nodes, |nodes|)
    ensures IsStack(stack, s) && OthersFreed(nodes, |nodes|, s)
  {
    var ent := entities;
    ghost var i := 0;
    stack, s := null, [];
    assert StackOf(nodes, 0) == [];
    while ent != null
      invariant i <= |nodes| && Pushing(nodes, i, ent, stack, s) && s == StackOf(nodes, i)
      decreases |nodes| - i
    {
      ent, stack, s := PushOne(nodes, i, ent, stack, s);
      i := i + 1;
    }
  }

  /** The lowest `j` nodes of the stack are still linked downwards. */
  ghost predicate Unpopped(s: seq<PathEnt>, j: nat)
    reads s
  {
    && (forall k {:trigger s[k].next} :: 0 <= k < j && k < |s| ==> s[k].next == Below(s, k))
    && (forall k {:trigger s[k].freed} :: 0 <= k < j && k < |s| ==> !s[k].freed)
  }

  /** The popping loop has `j` nodes left on the stack, and the rest of them in `entities`. */
  ghost predicate Popping(s: seq<PathEnt>, j: nat, ent: PathEnt?, entities: PathEnt?)
    reads s
  {
    Distinct(s) && j <= |s| && ent == Below(s, j) && Tail(entities, s, j) && Unpopped(s, j)
  }

  /** One pass of the popping loop. */
  method PopOne(ghost s: seq<PathEnt>, ghost j: nat, ent: PathEnt, entities: PathEnt?) returns (nextEnt: PathEnt?)
    requires Popping(s, j, ent, entities)
    modifies ent`next
    ensures j > 0 && Popping(s, j - 1, nextEnt, ent)
  {
    nextEnt := ent.next;
    ent.next := entities;
  }

  /** Pops everything off the stack into a list, which restores the order of pushing. */
  method PopAll(stack: PathEnt?, ghost s: seq<PathEnt>) returns (entities: PathEnt?)
    requires IsStack(stack, s) && Distinct(s)
    modifies s
    ensures IsList(entities, s)
  {
    entities := null;
    var ent := stack;
    ghost var j: nat := |s|;
    while ent != null
      invariant Popping(s, j, ent, entities)
      decreases j
    {
      var nextEnt := PopOne(s, j, ent, entities);
      entities := ent;
      ent := nextEnt;
      j := j - 1;
    }
  }

  /** Pushes the whole list and pops what is left. */
  method ResolveList(entities: PathEnt?, ghost nodes: seq<PathEnt>) returns (resolved: PathEnt?, ghost s: seq<PathEnt>)
    requires IsList(entities, nodes)
    modifies nodes
    ensures s == StackOf(nodes, |nodes|) && IsList(resolved, s)
    ensures forall n :: n in nodes && n !in s ==> (n.freed <==> n.name != "..")
  {
    var stack;
    stack, s := PushAll(nodes, entities);
    StackIsEarlier(nodes, |nodes|);
    assert nodes[..|nodes|] == nodes;
    resolved := PopAll(stack, s);
  }

  class VfsPath {
    var entities: PathEnt?
    var absolute: bool
    /** The list's nodes in order. */
    ghost var nodes: seq<PathEnt>

    constructor ()
      ensures entities == null && !absolute && nodes == [] && Valid()
    {
      entities := null;
      absolute := false;
      nodes := [];
    }

    ghost predicate Valid()
      reads this, nodes
    {
      IsList(entities, nodes)
    }

    /**
     * Resolves "." and ".." in place. The nodes that remain are the survivors among the original ones, in
     * their original order; the others are given back, except that a ".." node is merely dropped.
     */
    method Resolve()
      requires Valid()
      modifies this`entities, this`nodes, nodes
      ensures absolute == old(absolute)
      ensures Valid() && nodes == StackOf(old(nodes), |old(nodes)|) && forall n :: n in nodes ==> n in old(nodes)
      ensures NamesOf(nodes) == Normalize(NamesOf(old(nodes)))
      ensures forall n :: n in old(nodes) && n !in nodes ==> (n.freed <==> n.name != "..")
    {
      if entities == null {
        assert nodes == [];
        return;
      }
      StackNames(nodes);
      StackSubset(nodes);
      entities, nodes := ResolveList(entities, nodes);
    }
  }

  /** The names left on the stack are the resolved path. */
  lemma StackNames(nodes: seq<PathEnt>)
    ensures NamesOf(StackOf(nodes, |nodes|)) == Normalize(NamesOf(nodes))
  {
    assert nodes[..|nodes|] == nodes;
    SurvivorsAreNormal(NamesOf(nodes));
    assert NamesOf(StackOf(nodes, |nodes|)) == Select(NamesOf(nodes), Survivors(NamesOf(nodes)));
  }

  /** Walks to the end of a list and links another one there. */
  method AppendList(list: PathEnt?, ghost nodes: seq<PathEnt>, more: PathEnt?, ghost added: seq<PathEnt>)
    returns (head: PathEnt?)
    requires IsList(list, nodes) && IsList(more, added) && Distinct(nodes + added)
    modifies nodes
    ensures IsList(head, nodes + added)
  {
    if list == null {
      assert nodes + added == added;
      return more;
    }
    head := list;
    var tail := list;
    ghost var i := 0;
    while tail.next != null
      invariant i < |nodes| && tail == nodes[i]
      decreases |nodes| - i
    {
      tail := tail.next;
      i := i + 1;
    }
    LinkEnd(tail, nodes, more, added);
  }

  /** Linking a list behind the last node of another. */
  method LinkEnd(tail: PathEnt, ghost nodes: seq<PathEnt>, more: PathEnt?, ghost added: seq<PathEnt>)
    requires nodes != [] && IsList(nodes[0], nodes) && tail == nodes[|nodes| - 1]
    requires IsList(more, added) && Distinct(nodes + added)
    modifies tail`next
    ensures IsList(nodes[0], nodes + added)
  {
    ghost var all := nodes + added;
    assert forall j :: 0 <= j < |added| ==> all[|nodes| + j] == added[j];
    assert all[|nodes| - 1] == tail;
    assert forall j :: 0 <= j < |nodes| - 1 ==> nodes[j] != tail && all[j] == nodes[j];
    assert forall j :: |nodes| <= j < |all| ==> all[j] != tail;
    tail.next := more;
    forall j | 0 <= j < |all|
      ensures all[j].next == NodeAt(all, j + 1) && !all[j].freed
    {
      if j < |nodes| {
        assert all[j] == nodes[j];
      } else {
        assert added[j - |nodes|] == all[j] && all[j] != tail;
        assert NodeAt(all, j + 1) == NodeAt(added, j - |nodes| + 1);
      }
    }
  }

  /** Copies a path node by node; the copy shares nothing with the original. */
  method Clone(path: VfsPath?) returns (result: VfsPath?)
    requires path != null ==> path.Valid()
    ensures (result == null) == (path == null)
    ensures path != null ==> fresh(result) && fresh(result.nodes) && result.Valid()
    ensures path != null ==> result.absolute == path.absolute && NamesOf(result.nodes) == NamesOf(path.nodes)
  {
    if path == null {
      return null;
    }
    result := new VfsPath();
    result.absolute := path.absolute;
    result.entities, result.nodes := CopyNodes(path.entities, path.nodes);
  }

  /** The copying loop: `first` is the copied list, `head` its last node so far. */
  method CopyNodes(entities: PathEnt?, ghost nodes: seq<PathEnt>)
    returns (first: PathEnt?, ghost copies: seq<PathEnt>)
    requires IsList(entities, nodes)
    ensures IsList(first, copies) && NamesOf(copies) == NamesOf(nodes) && fresh(copies)
  {
    first, copies := null, [];
    var head: PathEnt? := null;
    var ent := entities;
    ghost var i := 0;
    while ent != null
      invariant i <= |nodes| && Tail(ent, nodes, i)
      invariant IsList(first, copies) && fresh(copies) && head == Below(copies, |copies|)
      invariant NamesOf(copies) == NamesOf(nodes[..i])
      decreases |nodes| - i
    {
      var copy;
      first, copy := CopyNode(first, head, ent.name, copies);
      NamesStep(nodes, i, copies, copy);
      head := copy;
      copies := copies + [copy];
      ent := ent.next;
      i := i + 1;
    }
    assert nodes[..i] == nodes;
  }

  lemma AppendNode(nodes: seq<PathEnt>, node: PathEnt)
    requires Distinct(nodes) && node !in nodes
    ensures Distinct(nodes + [node])
    ensures NamesOf(nodes + [node]) == NamesOf(nodes) + [node.name]
  {
  }

  lemma NamesStep(nodes: seq<PathEnt>, i: nat, copies: seq<PathEnt>, copy: PathEnt)
    requires i < |nodes| && NamesOf(copies) == NamesOf(nodes[..i]) && copy.name == nodes[i].name
    ensures NamesOf(copies + [copy]) == NamesOf(nodes[..i + 1])
  {
    assert nodes[..i + 1] == nodes[..i] + [nodes[i]];
    assert NamesOf(copies + [copy]) == NamesOf(copies) + [copy.name];
    assert NamesOf(nodes[..i + 1]) == NamesOf(nodes[..i]) + [copy.name];
  }

  method CopyNode(first: PathEnt?, head: PathEnt?, name: string, ghost copies: seq<PathEnt>)
    returns (first': PathEnt?, copy: PathEnt)
    requires IsList(first, copies) && head == Below(copies, |copies|)
    modifies head
    ensures fresh(copy) && copy.name == name && IsList(first', copies + [copy])
  {
    copy := new PathEnt(name);
    AppendNode(copies, copy);
    first' := AppendNew(first, head, copy, copies);
  }

  /** Links a new node behind `head`, the last one so far. */
  method AppendNew(first: PathEnt?, head: PathEnt?, node: PathEnt, ghost nodes: seq<PathEnt>) returns (first': PathEnt?)
    requires IsList(first, nodes) && head == Below(nodes, |nodes|) && Distinct(nodes + [node])
    requires node.next == null && !node.freed
    modifies head
    ensures IsList(first', nodes + [node])
  {
    if first == null {
      assert nodes + [node] == [node];
      return node;
    }
    LinkEnd(head, nodes, node, [node]);
    return first;
  }

  /** The components of a merge: an absolute second path replaces the first, an empty one changes nothing. */
  function Merged(dest: seq<string>, absolute: bool, src: seq<string>): seq<string> {
    if absolute then src
    else if src == [] then dest
    else Normalize(dest + src)
  }

  /** Merges two paths into a new one; the arguments are left alone. */
  method Merge(dest: VfsPath?, src: VfsPath?) returns (result: VfsPath?)
    requires dest != null ==> dest.Valid()
    requires src != null ==> src.Valid()
    ensures result == null <==> dest == null || src == null || !dest.absolute
    ensures result != null ==> fresh(result) && fresh(result.nodes) && result.Valid() && result.absolute
    ensures result != null ==> NamesOf(result.nodes) == Merged(NamesOf(dest.nodes), src.absolute, NamesOf(src.nodes))
  {
    if dest == null || src == null {
      return null;
    }
    if !dest.absolute {
      return null;
    }
    if src.absolute {
      result := Clone(src);
      return;
    }
    if src.entities == null {
      assert src.nodes == [];
      result := Clone(dest);
      return;
    }
    result := MergeRelative(dest, src);
  }

  /** The joining half of a merge. */
  method MergeRelative(dest: VfsPath, src: VfsPath) returns (result: VfsPath)
    requires dest.Valid() && src.Valid() && dest.absolute
    ensures fresh(result) && fresh(result.nodes) && result.Valid() && result.absolute
    ensures NamesOf(result.nodes) == Normalize(NamesOf(dest.nodes) + NamesOf(src.nodes))
  {
    result := JoinClones(dest, src);
    result.Resolve();
  }

  /** Copies both paths and links the second copy behind the first. */
  method JoinClones(dest: VfsPath, src: VfsPath) returns (result: VfsPath)
    requires dest.Valid() && src.Valid()
    ensures fresh(result) && fresh(result.nodes) && result.Valid() && result.absolute == dest.absolute
    ensures NamesOf(result.nodes) == NamesOf(dest.nodes) + NamesOf(src.nodes)
  {
    var tmp;
    result, tmp := CloneBoth(dest, src);
    LinkBehind(result, tmp);
  }

  method CloneBoth(dest: VfsPath, src: VfsPath) returns (a: VfsPath, b: VfsPath)
    requires dest.Valid() && src.Valid()
    ensures fresh(a) && fresh(a.nodes) && a.Valid() && a.absolute == dest.absolute
    ensures NamesOf(a.nodes) == NamesOf(dest.nodes)
    ensures fresh(b) && fresh(b.nodes) && b.Valid() && NamesOf(b.nodes) == NamesOf(src.nodes)
    ensures a != b && forall n :: n in a.nodes ==> n !in b.nodes
  {
    a := Clone(dest);
    b := Clone(src);
  }

  /** Moves the nodes of `tmp` behind those of `result`. */
  method LinkBehind(result: VfsPath, tmp: VfsPath)
    requires result.Valid() && tmp.Valid() && result != tmp && forall n :: n in result.nodes ==> n !in tmp.nodes
    modifies result`entities, result`nodes, tmp`entities, result.nodes
    ensures result.Valid() && result.nodes == old(result.nodes) + old(tmp.nodes)
    ensures result.absolute == old(result.absolute)
    ensures NamesOf(result.nodes) == old(NamesOf(result.nodes)) + old(NamesOf(tmp.nodes))
  {
    ghost var kept, added := result.nodes, tmp.nodes;
    Concat(kept, added);
    result.entities := AppendList(result.entities, kept, tmp.entities, added);
    result.nodes := kept + added;
    tmp.entities := null;
  }

  lemma Concat(a: seq<PathEnt>, b: seq<PathEnt>)
    requires Distinct(a) && Distinct(b) && forall n :: n in a ==> n !in b
    ensures Distinct(a + b) && NamesOf(a + b) == NamesOf(a) + NamesOf(b)
  {
    forall i, j | 0 <= i < j < |a + b|
      ensures (a + b)[i] != (a + b)[j]
    {
      if i < |a| <= j {
        assert (a + b)[i] in a && (a + b)[j] in b;
      }
    }
  }

  lemma StackSubset(nodes: seq<PathEnt>)
    ensures forall n :: n in StackOf(nodes, |nodes|) ==> n in nodes
  {
    assert nodes[..|nodes|] == nodes;
  }

  /** Detaches and gives back the last component, if there is one. */
  method DetachLast(cwd: VfsPath?)
    requires cwd != null ==> cwd.Valid()
    modifies cwd, if cwd != null then cwd.nodes else []
    ensures cwd != null ==> cwd.Valid() && cwd.absolute == old(cwd.absolute)
    ensures cwd != null ==>
      cwd.nodes == DropTop(old(cwd.nodes)) && NamesOf(cwd.nodes) == Popped(old(NamesOf(cwd.nodes)), 1)
  {
    if cwd == null || cwd.entities == null {
      return;
    }
    DropTopNames(cwd.nodes);
    if cwd.entities.next == null {
      DetachOnly(cwd);
    } else {
      DetachTail(cwd);
    }
  }

  method DetachOnly(cwd: VfsPath)
    requires cwd.Valid() && |cwd.nodes| == 1
    modifies cwd`entities, cwd`nodes, cwd.nodes
    ensures cwd.Valid() && cwd.nodes == []
  {
    FreePathEnt(cwd.entities, cwd.nodes);
    cwd.entities := null;
    cwd.nodes := [];
  }

  method DetachTail(cwd: VfsPath)
    requires cwd.Valid() && |cwd.nodes| >= 2
    modifies cwd`nodes, cwd.nodes
    ensures cwd.Valid() && cwd.nodes == DropTop(old(cwd.nodes))
  {
    ghost var nodes := cwd.nodes;
    var parent := FindParent(cwd.entities, nodes);
    CutAfter(parent, nodes);
    cwd.nodes := DropTop(nodes);
  }

  lemma DropTopNames(nodes: seq<PathEnt>)
    ensures NamesOf(DropTop(nodes)) == Popped(NamesOf(nodes), 1)
  {
  }

  /** The last node that has a successor. */
  method FindParent(entities: PathEnt, ghost nodes: seq<PathEnt>) returns (parent: PathEnt)
    requires IsList(entities, nodes) && |nodes| >= 2
    ensures parent == nodes[|nodes| - 2]
  {
    parent := entities;
    var ent: PathEnt? := entities;
    ghost var i := 0;
    while ent != null
      invariant i <= |nodes| && ent == NodeAt(nodes, i)
      invariant i > 0 ==> parent == nodes[if i == |nodes| then i - 2 else i - 1]
      decreases |nodes| - i
    {
      if ent.next != null {
        parent := ent;
      }
      ent := ent.next;
      i := i + 1;
    }
  }

  /** Gives back what follows the last-but-one node and ends the list there. */
  method CutAfter(parent: PathEnt, ghost nodes: seq<PathEnt>)
    requires |nodes| >= 2 && IsList(nodes[0], nodes) && parent == nodes[|nodes| - 2]
    modifies nodes
    ensures IsList(nodes[0], DropTop(nodes))
  {
    ghost var last := nodes[|nodes| - 1];
    assert parent.next == last;
    FreeOne(parent.next);
    parent.next := null;
    forall j | 0 <= j < |nodes| - 1
      ensures nodes[j].next == NodeAt(DropTop(nodes), j + 1) && !nodes[j].freed
    {
      assert nodes[j] != last;
    }
  }
}
