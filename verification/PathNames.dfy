/** Paths as lists of component names: resolution, and what resolving before merging does to it. */
module PathNames {

  predicate IsDots(name: string) {
    name == "." || name == ".."
  }

  /** One step of the resolution stack, its top at the end. */
  function Step(stack: seq<string>, name: string): seq<string> {
    if name == ".." then (if stack == [] then [] else stack[..|stack| - 1])
    else if name == "." then stack
    else stack + [name]
  }

  /** The stack after all names, starting from `stack`. */
  function Walk(stack: seq<string>, names: seq<string>): seq<string>
    decreases |names|
  {
    if names == [] then stack else Walk(Step(stack, names[0]), names[1..])
  }

  /** Lexical resolution of a component list. */
  function Normalize(names: seq<string>): seq<string> {
    Walk([], names)
  }

  predicate Resolved(names: seq<string>) {
    forall i :: 0 <= i < |names| ==> !IsDots(names[i])
  }

  /** How many ".." components find the stack empty. */
  function Underflows(stack: seq<string>, names: seq<string>): nat
    decreases |names|
  {
    if names == [] then 0
    else (if names[0] == ".." && stack == [] then 1 else 0) + Underflows(Step(stack, names[0]), names[1..])
  }

  lemma {:induction false} WalkConcat(stack: seq<string>, a: seq<string>, b: seq<string>)
    ensures Walk(stack, a + b) == Walk(Walk(stack, a), b)
    decreases |a|
  {
    if a == [] {
      assert a + b == b;
    } else {
      WalkConcat(Step(stack, a[0]), a[1..], b);
      assert (a + b)[1..] == a[1..] + b;
    }
  }

  /** What is left on the stack is never "." or "..". */
  lemma {:induction false} WalkIsResolved(stack: seq<string>, names: seq<string>)
    requires Resolved(stack)
    ensures Resolved(Walk(stack, names))
    decreases |names|
  {
    if names != [] {
      WalkIsResolved(Step(stack, names[0]), names[1..]);
    }
  }

  /** Walking resolved names only pushes. */
  lemma {:induction false} WalkResolved(stack: seq<string>, names: seq<string>)
    requires Resolved(names)
    ensures Walk(stack, names) == stack + names
    decreases |names|
  {
    if names == [] {
      assert stack + names == stack;
    } else {
      assert !IsDots(names[0]);
      WalkResolved(stack + [names[0]], names[1..]);
      assert stack + [names[0]] + names[1..] == stack + names;
    }
  }

  /** Resolving twice is resolving once. */
  lemma NormalizeIdempotent(names: seq<string>)
    ensures Resolved(Normalize(names)) && Normalize(Normalize(names)) == Normalize(names)
  {
    WalkIsResolved([], names);
    WalkResolved([], Normalize(names));
    assert [] + Normalize(names) == Normalize(names);
  }

  /** What remains of `base` after `pops` pops. */
  function Popped(base: seq<string>, pops: nat): seq<string> {
    if pops >= |base| then [] else base[..|base| - pops]
  }

  /**
   * Walking `names` on top of `base`: the walk from an empty stack on top of what its underflows leave of
   * `base`. `inner` is the part of the stack that `names` itself has pushed.
   */
  lemma {:induction false} WalkOver(base: seq<string>, inner: seq<string>, names: seq<string>)
    ensures Walk(base + inner, names) == Popped(base, Underflows(inner, names)) + Walk(inner, names)
    decreases |names|
  {
    if names == [] {
    } else if names[0] == ".." && inner == [] {
      assert base + inner == base;
      var popped := Step(base, "..");
      assert popped + [] == popped;
      WalkOver(popped, [], names[1..]);
      assert Popped(popped, Underflows([], names[1..])) == Popped(base, 1 + Underflows([], names[1..]));
    } else {
      assert Step(base + inner, names[0]) == base + Step(inner, names[0]);
      WalkOver(base, Step(inner, names[0]), names[1..]);
    }
  }

  /** Resolving a merged list: the second part's own result on what its underflows leave of the first's. */
  lemma NormalizeConcat(a: seq<string>, b: seq<string>)
    ensures Normalize(a + b) == Popped(Normalize(a), Underflows([], b)) + Normalize(b)
  {
    WalkConcat([], a, b);
    assert Normalize(a) + [] == Normalize(a);
    WalkOver(Normalize(a), [], b);
  }

  /** Resolving the second part first loses exactly its underflows. */
  lemma NormalizeResolvedConcat(a: seq<string>, b: seq<string>)
    ensures Normalize(a + Normalize(b)) == Normalize(a) + Normalize(b)
  {
    WalkConcat([], a, Normalize(b));
    NormalizeIdempotent(b);
    WalkResolved(Normalize(a), Normalize(b));
  }

  /**
   * Resolving a path before merging it agrees with resolving the merged components exactly when the
   * directory it is merged into is the root, or the path never pops past its own start.
   */
  lemma EarlyResolveIsLexical(a: seq<string>, b: seq<string>)
    ensures Normalize(a + Normalize(b)) == Normalize(a + b) <==> Normalize(a) == [] || Underflows([], b) == 0
  {
    NormalizeConcat(a, b);
    NormalizeResolvedConcat(a, b);
    var left, right := Normalize(a), Popped(Normalize(a), Underflows([], b));
    if left + Normalize(b) == right + Normalize(b) {
      assert |left| == |right|;
    }
  }

  /** The smallest disagreement: a directory and a path that only goes up. */
  lemma EarlyResolveLosesParent()
    ensures Normalize(["a"] + Normalize([".."])) == ["a"] && Normalize(["a"] + [".."]) == []
  {
    assert Normalize([".."]) == Walk(Step([], ".."), [".."][1..]);
    assert ["a"] + [] == ["a"] && ["a"][1..] == [];
    assert Normalize(["a"]) == Walk(Step([], "a"), []) == ["a"];
    NormalizeResolvedConcat(["a"], [".."]);
    NormalizeConcat(["a"], [".."]);
    assert Underflows([], [".."]) == 1;
  }

  /** Going up one level is dropping the last component. */
  lemma ParentIsDropLast(names: seq<string>)
    requires Resolved(names)
    ensures Normalize(names + [".."]) == Popped(names, 1)
  {
    WalkConcat([], names, [".."]);
    WalkResolved([], names);
    assert [] + names == names;
    assert Walk(names, [".."]) == Walk(Step(names, ".."), [".."][1..]);
  }

  // ---------- The components that survive ----------

  /** The positions whose names are still on the stack, in order. */
  function Survivors(names: seq<string>): (r: seq<nat>)
    ensures forall i :: 0 <= i < |r| ==> r[i] < |names|
  {
    if names == [] then []
    else
      var init, last := names[..|names| - 1], names[|names| - 1];
      var before := Survivors(init);
      if last == ".." then (if before == [] then [] else before[..|before| - 1])
      else if last == "." then before
      else before + [|init|]
  }

  predicate Increasing(s: seq<nat>) {
    forall i, j :: 0 <= i < j < |s| ==> s[i] < s[j]
  }

  function Select(names: seq<string>, picks: seq<nat>): (r: seq<string>)
    requires forall i :: 0 <= i < |picks| ==> picks[i] < |names|
    ensures |r| == |picks| && forall i :: 0 <= i < |r| ==> r[i] == names[picks[i]]
  {
    seq(|picks|, i requires 0 <= i < |picks| => names[picks[i]])
  }

  /** The result of resolution is a subsequence of the input: the survivors, in their order. */
  lemma {:induction false} SurvivorsAreNormal(names: seq<string>)
    ensures Increasing(Survivors(names))
    ensures Select(names, Survivors(names)) == Normalize(names)
    decreases |names|
  {
    if names != [] {
      var init, last := names[..|names| - 1], names[|names| - 1];
      SurvivorsAreNormal(init);
      WalkConcat([], init, [last]);
      assert init + [last] == names && [last][1..] == [];
      assert Walk(Normalize(init), [last]) == Step(Normalize(init), last);
      assert Select(names, Survivors(init)) == Select(init, Survivors(init));
      assert Select(names, Survivors(names)) == Step(Normalize(init), last);
    }
  }
}
