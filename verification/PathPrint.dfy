/** Printing a path into a bounded buffer, making a path from text, and how the two undo each other. */
module PathPrint {
  import opened Ctype
  import opened PathNames
  import opened PathList
  import opened PathText

  // ---------- What printing means ----------

  function Join(names: seq<string>): string {
    if names == [] then ""
    else if |names| == 1 then names[0]
    else names[0] + "/" + Join(names[1..])
  }

  function Printed(absolute: bool, names: seq<string>): string {
    (if absolute then "/" else "") + Join(names)
  }

  /** A component name as parsing can produce it. */
  predicate Name(n: string) {
    n != "" && '/' !in n && NUL !in n
  }

  predicate Names(names: seq<string>) {
    forall i :: 0 <= i < |names| ==> Name(names[i])
  }

  predicate NulFree(names: seq<string>) {
    forall i :: 0 <= i < |names| ==> NUL !in names[i]
  }

  // ---------- Printing ----------

  method StrLen(buffer: array<char>, ghost text: string) returns (n: nat)
    requires Holds(buffer, text)
    ensures n == |text|
  {
    n := 0;
    while buffer[n] != NUL
      invariant n <= |text|
      decreases |text| - n
    {
      HeldChar(buffer, text, n);
      n := n + 1;
    }
    HeldChar(buffer, text, n);
  }

  /** Appends a C string to the one in the buffer. */
  method StrCat(buffer: array<char>, more: string, ghost text: string)
    requires Holds(buffer, text) && |text| + |more| < buffer.Length && NUL !in more
    modifies buffer
    ensures Holds(buffer, text + more)
  {
    var n := StrLen(buffer, text);
    var i := 0;
    while i < |more|
      invariant i <= |more| && buffer[..n + i] == text + more[..i]
    {
      buffer[n + i] := more[i];
      i := i + 1;
      assert buffer[..n + i] == buffer[..n + i - 1] + [more[i - 1]];
    }
    buffer[n + i] := NUL;
    assert more[..i] == more;
  }

  lemma JoinStep(names: seq<string>, i: nat)
    requires i < |names|
    ensures Join(names[i..]) == names[i] + (if i + 1 < |names| then "/" else "") + Join(names[i + 1..])
  {
    assert names[i..][1..] == names[i + 1..];
    if i + 1 == |names| {
      assert names[i..] == [names[i]];
      assert names[i] + "" + "" == names[i];
    }
  }

  /** With `i` components printed the buffer holds `text`, which leaves the rest of `whole` to be printed. */
  ghost predicate Printing(buffer: array<char>, text: string, names: seq<string>, i: nat, whole: string)
    requires i <= |names|
    reads buffer
  {
    Holds(buffer, text) && text + Join(names[i..]) == whole
  }

  /** Appends one component, and a separator if another follows; fails when that does not fit. */
  method PrintOne(buffer: array<char>, name: string, more: bool,
                  ghost text: string, ghost names: seq<string>, ghost i: nat, ghost whole: string)
    returns (ok: bool, ghost text': string)
    requires i < |names| && Printing(buffer, text, names, i, whole) && NulFree(names)
    requires name == names[i] && (more <==> i + 1 < |names|)
    modifies buffer
    ensures !ok ==> |whole| + 1 >= buffer.Length
    ensures ok ==> Printing(buffer, text', names, i + 1, whole) && |text'| + 1 < buffer.Length
  {
    JoinStep(names, i);
    var sep := if more then "/" else "";
    text' := text + name + sep;
    assert text + (name + sep + Join(names[i + 1..])) == text' + Join(names[i + 1..]);
    var existing := StrLen(buffer, text);
    var len := existing + |name| + 1;
    if more {
      len := len + 1;
    }
    if len >= buffer.Length {
      return false, text';
    }
    StrCat(buffer, name, text);
    if more {
      StrCat(buffer, "/", text + name);
    }
    assert text + name + "" == text + name;
    ok := true;
  }

  /** The buffer before the first component. */
  method StartBuffer(absolute: bool, pathMax: nat) returns (buffer: array<char>)
    requires pathMax >= 2
    ensures fresh(buffer) && buffer.Length == pathMax && Holds(buffer, if absolute then "/" else "")
  {
    buffer := new char[pathMax](_ => NUL);
    if absolute {
      buffer[0] := '/';
    }
    assert absolute ==> buffer[..1] == "/";
  }

  /**
   * The text of a path in a buffer of `pathMax` characters, or null exactly when a path with components
   * needs that much room or more.
   */
  method Acquire(path: VfsPath, pathMax: nat) returns (buffer: array?<char>)
    requires path.Valid() && NulFree(NamesOf(path.nodes)) && pathMax >= 2
    ensures buffer == null <==> path.nodes != [] && |Printed(path.absolute, NamesOf(path.nodes))| + 1 >= pathMax
    ensures buffer != null ==> fresh(buffer) && buffer.Length == pathMax
    ensures buffer != null ==> Holds(buffer, Printed(path.absolute, NamesOf(path.nodes)))
  {
    ghost var names, whole := NamesOf(path.nodes), Printed(path.absolute, NamesOf(path.nodes));
    ghost var text := if path.absolute then "/" else "";
    var filled := StartBuffer(path.absolute, pathMax);
    assert names[0..] == names;
    if path.entities == null {
      assert names == [] && text + "" == text;
      return filled;
    }
    var ent := path.entities;
    ghost var i := 0;
    while ent != null
      invariant i <= |names| && ent == NodeAt(path.nodes, i)
      invariant Printing(filled, text, names, i, whole)
      invariant i > 0 ==> |text| + 1 < pathMax
      decreases |names| - i
    {
      var ok;
      ok, text := PrintOne(filled, ent.name, ent.next != null, text, names, i, whole);
      if !ok {
        return null;
      }
      ent := ent.next;
      i := i + 1;
    }
    assert names[i..] == [] && text + "" == text;
    buffer := filled;
  }

  // ---------- Making a path ----------

  /** The components that come out of parsing. */
  ghost function ParsedNames(s: string): seq<string> {
    if Rejected(s) then [] else Split(s)
  }

  datatype MadePath = Made(path: VfsPath?) | OverRead

  /** The path is the one `s` stands for. */
  ghost predicate MadeFrom(path: VfsPath, s: string)
    reads path, path.nodes
  {
    && path.Valid()
    && (path.absolute <==> s != "" && s[0] == '/')
    && NamesOf(path.nodes) == Normalize(ParsedNames(s))
  }

  /** Gives a new path its components and resolves them. */
  method FillPath(result: VfsPath, list: PathEnt?, ghost nodes: seq<PathEnt>)
    requires IsList(list, nodes)
    modifies result`entities, result`nodes, nodes
    ensures result.Valid() && result.absolute == old(result.absolute)
    ensures forall i :: 0 <= i < |result.nodes| ==> result.nodes[i] in nodes
    ensures NamesOf(result.nodes) == Normalize(NamesOf(nodes))
  {
    result.entities := list;
    result.nodes := nodes;
    result.Resolve();
  }

  /** Parses into an empty path. */
  method ParseInto(result: VfsPath, path: array<char>, ghost s: string) returns (overRead: bool)
    requires Holds(path, s) && result.Valid() && (result.absolute <==> s != "" && s[0] == '/')
    modifies path, result`entities, result`nodes
    ensures path[..] == old(path[..])
    ensures overRead <==> TrailingSlash(s) && !Rejected(s)
    ensures !overRead ==> MadeFrom(result, s) && fresh(result.nodes)
  {
    var parsed;
    ghost var nodes;
    parsed, nodes := Parse(path, s);
    overRead := parsed.PastTerminator?;
    if !overRead {
      FillPath(result, parsed.list, nodes);
      assert forall n :: n in result.nodes ==> n in nodes;
    }
  }

  /** A path from text, resolved at once; the text is left as it was. */
  method NewPath(path: array?<char>, ghost s: string) returns (r: MadePath)
    requires path != null ==> Holds(path, s)
    modifies path
    ensures path != null ==> path[..] == old(path[..])
    ensures r.OverRead? <==> path != null && TrailingSlash(s) && !Rejected(s)
    ensures r == Made(null) <==> path == null || s == ""
    ensures r.Made? && r.path != null ==> fresh(r.path) && fresh(r.path.nodes) && MadeFrom(r.path, s)
  {
    if path == null {
      return Made(null);
    }
    HeldChar(path, s, 0);
    if path[0] == NUL {
      return Made(null);
    }
    var result := new VfsPath();
    if path[0] == '/' {
      result.absolute := true;
    }
    var overRead := ParseInto(result, path, s);
    r := if overRead then OverRead else Made(result);
  }

  // ---------- Printing and parsing undo each other ----------

  /** A component, a separator, and more text. */
  lemma SplitPrefixed(head: string, more: string)
    requires head != "" && more != "" && forall i :: 0 <= i < |head| ==> head[i] != '/'
    ensures var s := head + "/" + more;
            && Split(s) == [head] + Split(more)
            && s[0] == head[0] && s[|s| - 1] == more[|more| - 1]
  {
    var s := head + "/" + more;
    assert s[..|head|] == head && s[|head| + 1..] == more;
    SplitSegment(s, |head|, |head| + 1);
  }

  lemma {:induction false} SplitJoin(names: seq<string>)
    requires Names(names)
    ensures Split(Join(names)) == names
    ensures names != [] ==> Join(names) != "" && Join(names)[0] != '/' && Join(names)[|Join(names)| - 1] != '/'
  {
    if names == [] {
    } else {
      var head, rest := names[0], names[1..];
      assert Name(head) && forall i :: 0 <= i < |head| ==> head[i] in head;
      if rest == [] {
        SplitSegment(head, |head|, |head|);
        assert head[..|head|] == head && head[|head|..] == "";
        assert names == [head];
      } else {
        SplitJoin(rest);
        SplitPrefixed(head, Join(rest));
        assert names == [head] + rest;
      }
    }
  }

  /** Every character is one that parsing accepts. */
  predicate AllPrintable(s: string) {
    forall i :: 0 <= i < |s| ==> Printable(s[i])
  }

  lemma {:induction false} JoinPrintable(names: seq<string>)
    requires forall i :: 0 <= i < |names| ==> AllPrintable(names[i])
    ensures AllPrintable(Join(names))
  {
    if names != [] {
      JoinPrintable(names[1..]);
    }
  }

  /**
   * Parsing the text of a path gives back its components and whether it is absolute. Without components the
   * path must be absolute, since the empty text makes no path.
   */
  lemma ParsePrinted(absolute: bool, names: seq<string>)
    requires Names(names) && (forall i :: 0 <= i < |names| ==> AllPrintable(names[i]))
    requires absolute || names != []
    ensures var s := Printed(absolute, names);
            && s != "" && (s[0] == '/' <==> absolute)
            && !Rejected(s) && !TrailingSlash(s) && ParsedNames(s) == names
  {
    var s, body := Printed(absolute, names), Join(names);
    SplitJoin(names);
    JoinPrintable(names);
    if absolute {
      assert s[1..] == body;
      SplitSkip(s, 1);
      LeadIs(s, 1);
    } else {
      assert s == body;
      LeadIs(s, 0);
    }
    assert AllPrintable(s);
  }

  /** The components of any text are proper names. */
  lemma {:induction false} SplitNames(s: string)
    requires NUL !in s
    ensures Names(Split(s))
    decreases |s|
  {
    if s == "" {
    } else if s[0] == '/' {
      SplitNames(s[1..]);
    } else {
      SplitNames(s[SegLen(s)..]);
      assert NoSlash(s, 0, SegLen(s));
    }
  }

  lemma {:induction false} WalkNames(stack: seq<string>, names: seq<string>)
    requires Names(stack) && Names(names)
    ensures Names(Walk(stack, names))
    decreases |names|
  {
    if names != [] {
      WalkNames(Step(stack, names[0]), names[1..]);
    }
  }

  /** The path is proper, resolved and printable, and its text is not empty. */
  ghost predicate Reparsable(path: VfsPath)
    reads path, path.nodes
  {
    && path.Valid() && Resolved(NamesOf(path.nodes)) && Names(NamesOf(path.nodes))
    && (forall i :: 0 <= i < |path.nodes| ==> AllPrintable(NamesOf(path.nodes)[i]))
    && (path.absolute || path.nodes != [])
  }

  lemma ReparsableMakes(path: VfsPath)
    requires Reparsable(path)
    ensures var s := Printed(path.absolute, NamesOf(path.nodes));
            && s != "" && (s[0] == '/' <==> path.absolute) && !(TrailingSlash(s) && !Rejected(s))
            && Normalize(ParsedNames(s)) == NamesOf(path.nodes)
  {
    var names := NamesOf(path.nodes);
    ParsePrinted(path.absolute, names);
    WalkResolved([], names);
    assert [] + names == names;
  }

  /** Printing a path and making another from the text gives the same path whenever it fits. */
  method PrintThenMake(path: VfsPath, pathMax: nat) returns (again: VfsPath?)
    requires Reparsable(path) && pathMax >= 2
    ensures again == null <==> path.nodes != [] && |Printed(path.absolute, NamesOf(path.nodes))| + 1 >= pathMax
    ensures again != null ==> again.Valid() && again.absolute == path.absolute
    ensures again != null ==> NamesOf(again.nodes) == NamesOf(path.nodes)
  {
    var buffer := Acquire(path, pathMax);
    if buffer == null {
      return null;
    }
    ReparsableMakes(path);
    var made := NewPath(buffer, Printed(path.absolute, NamesOf(path.nodes)));
    again := made.path;
  }
}
