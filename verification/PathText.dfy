/** Paths as text: parsing a C string in place, and printing into a bounded buffer. */
module PathText {
  import opened Ctype
  import opened PathList
  import opened Wrappers

  predicate Printable(c: char) {
    IsGraph(c) || c == ' '
  }

  // ---------- What parsing means ----------

  predicate NoSlash(s: string, from: nat, to: nat)
    requires to <= |s|
  {
    forall i :: from <= i < to ==> s[i] != '/'
  }

  /** The length of the leading run without separators. */
  function SegLen(s: string): (n: nat)
    ensures n <= |s| && NoSlash(s, 0, n) && (n < |s| ==> s[n] == '/')
  {
    if s == "" || s[0] == '/' then 0 else 1 + SegLen(s[1..])
  }

  /** The non-empty runs between separators. */
  function Split(s: string): seq<string>
    decreases |s|
  {
    if s == "" then []
    else if s[0] == '/' then Split(s[1..])
    else [s[..SegLen(s)]] + Split(s[SegLen(s)..])
  }

  /** The number of leading separators. */
  function Lead(s: string): (n: nat)
    ensures n <= |s| && (n < |s| ==> s[n] != '/') && forall i :: 0 <= i < n ==> s[i] == '/'
  {
    if s == "" || s[0] != '/' then 0 else 1 + Lead(s[1..])
  }

  /** The loop looks at every character past the leading separators except those right after a separator. */
  predicate Checked(s: string, i: nat)
    requires i < |s|
  {
    i >= Lead(s) && (i == Lead(s) || s[i - 1] != '/')
  }

  /** The loop meets a character it rejects. */
  ghost predicate Rejected(s: string) {
    exists i :: 0 <= i < |s| && Checked(s, i) && !Printable(s[i])
  }

  /** The text ends in a separator that follows a component. */
  predicate TrailingSlash(s: string) {
    Lead(s) < |s| && s[|s| - 1] == '/'
  }

  /**
   * What is rejected is a character outside the printable range, unless a separator is in front of it and some
   * component before that.
   */
  lemma RejectedReads(s: string)
    ensures Rejected(s) <==>
            exists i :: 0 <= i < |s| && !(' ' <= s[i] <= '~') && (NoneBut(s[..i]) || s[i - 1] != '/')
    ensures TrailingSlash(s) <==> s != "" && s[|s| - 1] == '/' && !NoneBut(s)
  {
    assert NoneBut(s) <==> Lead(s) == |s|;
    forall i | 0 <= i < |s| && s[i] != '/'
      ensures Checked(s, i) <==> NoneBut(s[..i]) || s[i - 1] != '/'
    {
      assert i >= Lead(s);
      if NoneBut(s[..i]) {
        assert forall k :: 0 <= k < i ==> s[..i][k] == s[k];
      }
    }
  }

  /** Only separators. */
  predicate NoneBut(s: string) {
    forall i :: 0 <= i < |s| ==> s[i] == '/'
  }

  lemma {:induction false} SplitSkip(s: string, k: nat)
    requires k <= |s| && forall i :: 0 <= i < k ==> s[i] == '/'
    ensures Split(s) == Split(s[k..])
    decreases k
  {
    if k == 0 {
      assert s[0..] == s;
    } else {
      SplitSkip(s[1..], k - 1);
      assert s[1..][k - 1..] == s[k..];
    }
  }

  lemma {:induction false} SegLenIs(s: string, m: nat)
    requires m <= |s| && NoSlash(s, 0, m) && (m < |s| ==> s[m] == '/')
    ensures SegLen(s) == m
    decreases m
  {
    if m > 0 {
      SegLenIs(s[1..], m - 1);
    }
  }

  /** Splitting off one component and the separators after it. */
  lemma SplitSegment(s: string, m: nat, k: nat)
    requires 0 < m <= k <= |s| && NoSlash(s, 0, m) && forall i :: m <= i < k ==> s[i] == '/'
    requires m < |s| ==> m < k
    ensures Split(s) == [s[..m]] + Split(s[k..])
  {
    var tail := s[m..];
    assert s[0] != '/';
    SegLenIs(s, m);
    assert Split(s) == [s[..m]] + Split(tail);
    assert forall i :: 0 <= i < k - m ==> tail[i] == s[m + i];
    SplitSkip(tail, k - m);
    assert tail[k - m..] == s[k..];
  }

  // ---------- Parsing ----------

  /**
   * A list of components, or the point where the program goes on to read past the terminator. The empty
   * list stands for a null result, which is also the answer for rejected text.
   */
  datatype ParseResult = Parsed(list: PathEnt?) | PastTerminator

  /** Copies the C string at a position, as `strdup` does. */
  method StrDup(path: array<char>, start: nat, ghost end: nat) returns (r: string)
    requires start <= end < path.Length && path[end] == NUL && forall j :: start <= j < end ==> path[j] != NUL
    ensures r == path[start..end]
  {
    r := "";
    var i := start;
    while path[i] != NUL
      invariant start <= i <= end && r == path[start..i]
      decreases end - i
    {
      r := r + [path[i]];
      i := i + 1;
    }
  }

  /** Every character examined before position `i` was accepted. */
  ghost predicate Accepted(s: string, i: nat)
    requires i <= |s|
  {
    forall j :: 0 <= j < i && Checked(s, j) ==> Printable(s[j])
  }

  /** Position `i` is examined next, and the current component is what lies between `entity` and it. */
  ghost predicate InComponent(s: string, entity: nat, i: nat) {
    && Lead(s) <= entity <= i <= |s|
    && (entity < |s| ==> NoSlash(s, entity, i) && s[entity] != '/')
    && (i < |s| ==> Checked(s, i))
    && (entity == i ==> i == Lead(s))
  }

  /** The components before `entity` are `names`. */
  ghost predicate Collected(s: string, entity: nat, names: seq<string>)
    requires entity <= |s|
  {
    Split(s) == names + Split(s[entity..])
  }

  /** The parsing loop is about to look at position `i`; the current component starts at `entity`. */
  ghost predicate StandsAt(s: string, entity: nat, i: nat, names: seq<string>) {
    InComponent(s, entity, i) && Collected(s, entity, names) && Accepted(s, i)
  }

  lemma AtStart(s: string)
    ensures StandsAt(s, Lead(s), Lead(s), [])
  {
    SplitSkip(s, Lead(s));
  }

  /** Past a character of the current component. */
  lemma AtChar(s: string, entity: nat, i: nat, names: seq<string>)
    requires StandsAt(s, entity, i, names) && i < |s| && Printable(s[i]) && s[i] != '/'
    ensures StandsAt(s, entity, i + 1, names)
  {
  }

  /** Splitting from `entity` on: a component up to `i`, separators up to `j`. */
  lemma SplitAt(s: string, entity: nat, i: nat, j: nat)
    requires entity < i <= j <= |s| && NoSlash(s, entity, i) && (forall k :: i <= k < j ==> s[k] == '/')
    requires i < |s| ==> i < j
    ensures Split(s[entity..]) == [s[entity..i]] + Split(s[j..])
  {
    var rest, m, k := s[entity..], i - entity, j - entity;
    assert NoSlash(rest, 0, m);
    assert forall l :: m <= l < k ==> rest[l] == s[l + entity];
    SplitSegment(rest, m, k);
    assert rest[..m] == s[entity..i] && rest[k..] == s[j..];
  }

  /** Nothing is rejected among a run of separators and the one character after it. */
  lemma AcceptedRun(s: string, i: nat, j: nat)
    requires Lead(s) <= i < j <= |s| && Accepted(s, i) && (forall k :: i <= k < j ==> s[k] == '/')
    ensures Accepted(s, j) && (j < |s| ==> Accepted(s, j + 1))
  {
    assert s[j - 1] == '/';
  }

  /** Past a component and the separators behind it, which also passes over the next component's first character. */
  lemma AtComponent(s: string, entity: nat, i: nat, names: seq<string>, j: nat)
    requires StandsAt(s, entity, i, names) && i < j < |s| && (forall k :: i <= k < j ==> s[k] == '/') && s[j] != '/'
    ensures StandsAt(s, j, j + 1, names + [s[entity..i]])
  {
    SplitAt(s, entity, i, j);
    assert names + ([s[entity..i]] + Split(s[j..])) == names + [s[entity..i]] + Split(s[j..]);
    AcceptedRun(s, i, j);
  }

  /** The separators run to the terminator. */
  lemma AtTrailing(s: string, entity: nat, i: nat, names: seq<string>)
    requires StandsAt(s, entity, i, names) && i < |s| && forall k :: i <= k < |s| ==> s[k] == '/'
    ensures TrailingSlash(s) && !Rejected(s)
  {
    AcceptedRun(s, i, |s|);
    assert s[|s| - 1] == '/';
  }

  /** At the end of the text, what is left is the last component, if any. */
  lemma CollectedEnd(s: string, entity: nat, names: seq<string>)
    requires InComponent(s, entity, |s|) && Collected(s, entity, names)
    ensures Split(s) == names + if entity < |s| then [s[entity..]] else []
  {
    if entity < |s| {
      SplitAt(s, entity, |s|, |s|);
      assert s[entity..|s|] == s[entity..] && Split(s[|s|..]) == [];
      assert [s[entity..]] + [] == [s[entity..]];
    } else {
      assert s[entity..] == "";
    }
  }

  /** The end of the text: nothing was rejected, and no separator comes last. */
  lemma AtEnd(s: string, entity: nat, names: seq<string>)
    requires StandsAt(s, entity, |s|, names)
    ensures !Rejected(s) && !TrailingSlash(s)
    ensures Split(s) == names + if entity < |s| then [s[entity..]] else []
  {
    CollectedEnd(s, entity, names);
  }

  /** Walks over a run of separators. */
  method SkipRun(path: array<char>, from: nat, ghost s: string) returns (i: nat)
    requires Holds(path, s) && from <= |s|
    ensures from <= i <= |s| && (forall k :: from <= k < i ==> s[k] == '/') && (i < |s| ==> s[i] != '/')
    ensures path[i] == NUL <==> i == |s|
  {
    i := from;
    while path[i] == '/'
      invariant from <= i <= |s| && forall k :: from <= k < i ==> s[k] == '/'
      decreases |s| - i
    {
      assert i < |s| ==> path[..|s|][i] == s[i];
      i := i + 1;
    }
    assert i < |s| ==> path[..|s|][i] == s[i] && s[i] in s;
  }

  /** Appends the component between two positions, ending it with a NUL for the time being. */
  method ParseComponent(path: array<char>, entity: nat, i: nat, list: PathEnt?, ghost nodes: seq<PathEnt>,
                        ghost s: string)
    returns (list': PathEnt?, ghost added: PathEnt)
    requires Holds(path, s) && entity <= i < |s| && IsList(list, nodes) && path[i] == '/'
    modifies path, nodes
    ensures path[..] == old(path[..])
    ensures fresh(added) && added.name == s[entity..i] && IsList(list', nodes + [added])
  {
    assert path[..|s|] == s;
    path[i] := NUL;
    var name := StrDup(path, entity, i);
    assert name == s[entity..i];
    list', added := AppendName(list, nodes, name);
    path[i] := '/';
    assert path[..] == old(path[..]);
  }

  method AppendName(list: PathEnt?, ghost nodes: seq<PathEnt>, name: string)
    returns (list': PathEnt?, ghost added: PathEnt)
    requires IsList(list, nodes)
    modifies nodes
    ensures fresh(added) && added.name == name && IsList(list', nodes + [added])
  {
    var pathent := new PathEnt(name);
    added := pathent;
    AppendNode(nodes, pathent);
    list' := AppendList(list, nodes, pathent, [pathent]);
  }

  lemma {:induction false} LeadIs(s: string, n: nat)
    requires n <= |s| && (forall i :: 0 <= i < n ==> s[i] == '/') && (n < |s| ==> s[n] != '/')
    ensures Lead(s) == n
  {
    if n > 0 {
      LeadIs(s[1..], n - 1);
    }
  }

  lemma NamesAppend(nodes: seq<PathEnt>, n: PathEnt)
    ensures NamesOf(nodes + [n]) == NamesOf(nodes) + [n.name]
  {
  }

  /** The parsing loop is about to look at position `i`, with `nodes` in the list so far. */
  ghost predicate Parsing(path: array<char>, s: string, entity: nat, i: nat, list: PathEnt?, nodes: seq<PathEnt>)
    reads path, nodes
  {
    Holds(path, s) && StandsAt(s, entity, i, NamesOf(nodes)) && IsList(list, nodes)
  }

  /** Finds the first component. */
  method ParseStart(path: array<char>, ghost s: string) returns (entity: nat)
    requires Holds(path, s)
    ensures Parsing(path, s, entity, entity, null, [])
  {
    entity := SkipRun(path, 0, s);
    LeadIs(s, entity);
    AtStart(s);
  }

  /** One component and the separators behind it, up to the next component or the terminator. */
  method ParseRun(path: array<char>, entity: nat, i: nat, list: PathEnt?, ghost nodes: seq<PathEnt>, ghost s: string)
    returns (list': PathEnt?, ghost added: PathEnt, j: nat)
    requires Parsing(path, s, entity, i, list, nodes) && i < |s| && path[i] == '/'
    modifies path, nodes
    ensures path[..] == old(path[..]) && fresh(added)
    ensures i < j < path.Length && Holds(path, s)
    ensures path[j] != NUL ==> j < |s| && Parsing(path, s, j, j + 1, list', nodes + [added])
    ensures path[j] == NUL ==> TrailingSlash(s) && !Rejected(s)
  {
    HeldChar(path, s, i);
    list', added := ParseComponent(path, entity, i, list, nodes, s);
    assert Holds(path, s) by {
      assert path[..|s|] == path[..][..|s|] && path[|s|] == path[..][|s|];
    }
    NamesAppend(nodes, added);
    j := SkipRun(path, i, s);
    if j < |s| {
      AtComponent(s, entity, i, NamesOf(nodes), j);
    } else {
      AtTrailing(s, entity, i, NamesOf(nodes));
    }
  }

  /** The terminator: what is left is the last component, if any. */
  method ParseLast(path: array<char>, entity: nat, list: PathEnt?, ghost nodes: seq<PathEnt>, ghost s: string)
    returns (list': PathEnt?, ghost added: seq<PathEnt>)
    requires Parsing(path, s, entity, |s|, list, nodes)
    modifies nodes
    ensures !TrailingSlash(s) && !Rejected(s) && NamesOf(nodes + added) == Split(s)
    ensures IsList(list', nodes + added) && fresh(added)
  {
    AtEnd(s, entity, NamesOf(nodes));
    HeldChar(path, s, entity);
    list', added := list, [];
    assert nodes + added == nodes;
    if path[entity] != NUL {
      HeldSlice(path, s, entity);
      var name := StrDup(path, entity, |s|);
      ghost var last;
      list', last := AppendName(list, nodes, name);
      NamesAppend(nodes, last);
      added := [last];
    }
  }

  lemma HeldSlice(path: array<char>, s: string, entity: nat)
    requires Holds(path, s) && entity <= |s|
    ensures path[entity..|s|] == s[entity..] && forall j :: entity <= j < |s| ==> path[j] != NUL
  {
    assert path[entity..|s|] == path[..|s|][entity..];
    forall j | entity <= j < |s|
      ensures path[j] != NUL
    {
      HeldChar(path, s, j);
    }
  }

  lemma AtRejected(s: string, entity: nat, i: nat, names: seq<string>)
    requires StandsAt(s, entity, i, names) && i < |s| && !Printable(s[i])
    ensures Rejected(s)
  {
  }

  /** One round of the parsing loop: it goes on at `i'`, or the parse is over with `stop`. */
  method ParseRound(path: array<char>, entity: nat, i: nat, list: PathEnt?, ghost nodes: seq<PathEnt>, ghost s: string)
    returns (stop: Option<ParseResult>, entity': nat, i': nat, list': PathEnt?, ghost added: seq<PathEnt>)
    requires Parsing(path, s, entity, i, list, nodes) && i < |s|
    modifies path, nodes
    ensures path[..] == old(path[..]) && fresh(added)
    ensures stop.None? ==> i < i' <= |s| && Parsing(path, s, entity', i', list', nodes + added)
    ensures stop == Some(Parsed(null)) ==> Rejected(s)
    ensures stop == Some(PastTerminator) ==> TrailingSlash(s) && !Rejected(s)
    ensures stop.None? || stop == Some(Parsed(null)) || stop == Some(PastTerminator)
  {
    HeldChar(path, s, i);
    stop, entity', i', list', added := None, entity, i + 1, list, [];
    assert nodes + added == nodes;
    if !IsGraph(path[i]) && path[i] != ' ' {
      AtRejected(s, entity, i, NamesOf(nodes));
      FreePathEnt(list, nodes);
      stop := Some(Parsed(null));
    } else if path[i] == '/' {
      ghost var node;
      list', node, entity' := ParseRun(path, entity, i, list, nodes, s);
      added := [node];
      i' := entity' + 1;
      if path[entity'] == NUL {
        stop := Some(PastTerminator);
      }
    } else {
      AtChar(s, entity, i, NamesOf(nodes));
    }
  }

  /** The whole parsing loop: it reaches the end of the text, or the parse is over with `stop`. */
  method ParseRounds(path: array<char>, ghost s: string)
    returns (stop: Option<ParseResult>, entity: nat, list: PathEnt?, ghost nodes: seq<PathEnt>)
    requires Holds(path, s)
    modifies path
    ensures path[..] == old(path[..]) && fresh(nodes)
    ensures stop.None? ==> Parsing(path, s, entity, |s|, list, nodes)
    ensures stop == Some(Parsed(null)) ==> Rejected(s)
    ensures stop == Some(PastTerminator) ==> TrailingSlash(s) && !Rejected(s)
    ensures stop.None? || stop == Some(Parsed(null)) || stop == Some(PastTerminator)
  {
    entity := ParseStart(path, s);
    stop, list, nodes := None, null, [];
    var i := entity;
    ghost var added;
    while path[i] != NUL
      invariant path[..] == old(path[..]) && Parsing(path, s, entity, i, list, nodes) && fresh(nodes)
      decreases |s| - i
    {
      HeldChar(path, s, i);
      stop, entity, i, list, added := ParseRound(path, entity, i, list, nodes, s);
      if stop.Some? {
        nodes := [];
        return;
      }
      nodes := nodes + added;
    }
    stop := None;
    HeldChar(path, s, i);
  }

  /**
   * Parses a path in place: the components between separators, or null for an empty or rejected text. When
   * separators follow the last component, the step after them reads past the terminator.
   */
  method Parse(path: array<char>, ghost s: string) returns (r: ParseResult, ghost nodes: seq<PathEnt>)
    requires Holds(path, s)
    modifies path
    ensures path[..] == old(path[..])
    ensures r.PastTerminator? <==> TrailingSlash(s) && !Rejected(s)
    ensures r.Parsed? ==>
      IsList(r.list, nodes) && fresh(nodes) && NamesOf(nodes) == if Rejected(s) then [] else Split(s)
  {
    nodes := [];
    if path[0] == NUL {
      HeldChar(path, s, 0);
      return Parsed(null), [];
    }
    var stop, entity, list;
    stop, entity, list, nodes := ParseRounds(path, s);
    if stop.Some? {
      return stop.value, [];
    }
    ghost var added;
    list, added := ParseLast(path, entity, list, nodes, s);
    nodes := nodes + added;
    r := Parsed(list);
  }
}
