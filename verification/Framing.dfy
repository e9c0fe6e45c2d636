/** Cutting a byte stream into lines, and lines into requests. */
module Framing {
  import opened Ctype
  import opened IoBuffers
  import opened Wrappers

  // ---------- Lines of a stream ----------

  /** The texts of the complete lines. */
  function Lines(s: string): seq<string>
    decreases |s|
  {
    if Eol(s) == |s| then [] else [LineText(s, false)] + Lines(s[Eol(s) + 1..])
  }

  /** What follows the last newline. */
  function Rest(s: string): string
    decreases |s|
  {
    if Eol(s) == |s| then s else Rest(s[Eol(s) + 1..])
  }

  /** The first line of a stream does not depend on what comes after its newline. */
  lemma EolConcat(a: string, b: string)
    ensures Eol(a) < |a| ==> Eol(a + b) == Eol(a) && LineText(a + b, false) == LineText(a, false)
    ensures Eol(a) < |a| ==> (a + b)[Eol(a + b) + 1..] == a[Eol(a) + 1..] + b
  {
    if Eol(a) < |a| {
      assert (a + b)[..Eol(a)] == a[..Eol(a)];
      EolIs(a + b, Eol(a));
      var e := Eol(a);
      if HasCr(a, e) {
        assert (a + b)[..e - 1] == a[..e - 1];
      }
    }
  }

  lemma LinesFront(s: string, line: string, more: string)
    requires Eol(s) < |s| && line == LineText(s, false) && more == s[Eol(s) + 1..]
    ensures Lines(s) == [line] + Lines(more)
  {
  }

  lemma RestFront(s: string, more: string)
    requires Eol(s) < |s| && more == s[Eol(s) + 1..]
    ensures Rest(s) == Rest(more)
  {
    var rest := s[Eol(s) + 1..];
    assert Rest(s) == Rest(rest);
    assert rest == more;
  }

  lemma LinesStep(a: string, b: string, line: string, more: string)
    requires Eol(a) < |a| && line == LineText(a, false) && more == a[Eol(a) + 1..]
    ensures Lines(a + b) == [line] + Lines(more + b) && Rest(a + b) == Rest(more + b)
    ensures Lines(a) == [line] + Lines(more) && Rest(a) == Rest(more)
  {
    EolConcat(a, b);
    LinesFront(a, line, more);
    RestFront(a, more);
    LinesFront(a + b, line, more + b);
    RestFront(a + b, more + b);
  }

  /** Cutting a stream in two and feeding the parts one after the other finds the same lines. */
  lemma {:induction false} LinesConcat(a: string, b: string)
    ensures Lines(a + b) == Lines(a) + Lines(Rest(a) + b) && Rest(a + b) == Rest(Rest(a) + b)
    decreases |a|
  {
    if Eol(a) < |a| {
      var line, more := LineText(a, false), a[Eol(a) + 1..];
      LinesStep(a, b, line, more);
      LinesConcat(more, b);
      Associate([line], Lines(more), Lines(Rest(more) + b));
    }
  }

  /** Every line, newline included, and what follows the last one stay below a capacity. */
  predicate Fits(s: string, capacity: nat)
    decreases |s|
  {
    if Eol(s) == |s| then |s| < capacity else Eol(s) < capacity && Fits(s[Eol(s) + 1..], capacity)
  }

  /** If all lines fit, then so does what is left over at any point of the stream. */
  lemma {:induction false} RestFits(a: string, b: string, capacity: nat)
    requires Fits(a + b, capacity)
    ensures |Rest(a)| < capacity
    decreases |a|
  {
    if Eol(a) < |a| {
      EolConcat(a, b);
      RestFits(a[Eol(a) + 1..], b, capacity);
    } else {
      assert a[..|a|] == a;
      NoEolPrefix(a, b);
    }
  }

  lemma NoEolPrefix(a: string, b: string)
    requires '\n' !in a
    ensures Eol(a + b) >= |a|
  {
    forall k | 0 <= k < |a|
      ensures (a + b)[k] != '\n'
    {
      assert a[k] in a;
    }
  }

  // ---------- Requests ----------

  /** The C string at the start of some bytes. */
  function CString(s: string): (r: string)
    ensures |r| <= |s| && r == s[..|r|] && NUL !in r && (|r| < |s| ==> s[|r|] == NUL)
  {
    if s == "" || s[0] == NUL then "" else [s[0]] + CString(s[1..])
  }

  function SpaceLen(s: string): (n: nat)
    ensures n <= |s| && (n < |s| ==> !IsSpace(s[n])) && forall i :: 0 <= i < n ==> IsSpace(s[i])
  {
    if s == "" || !IsSpace(s[0]) then 0 else 1 + SpaceLen(s[1..])
  }

  function WordLen(s: string): (n: nat)
    ensures n <= |s| && (n < |s| ==> IsSpace(s[n])) && forall i :: 0 <= i < n ==> !IsSpace(s[i])
  {
    if s == "" || IsSpace(s[0]) then 0 else 1 + WordLen(s[1..])
  }

  predicate AllAlpha(s: string) {
    forall i :: 0 <= i < |s| ==> IsAlpha(s[i])
  }

  datatype Request = Request(mnemonic: string, parameter: string)

  /** What follows a word: nothing, or whatever comes after the character behind it and further spaces. */
  function AfterWord(s: string): string {
    if s == "" then "" else s[1..][SpaceLen(s[1..])..]
  }

  /** A C string as a command: a word of letters, put in upper case, and what follows it. */
  function ParseText(s: string): Option<Request> {
    var t := s[SpaceLen(s)..];
    var word := t[..WordLen(t)];
    if word == "" || !AllAlpha(word) then None
    else Some(Request(Upper(word), AfterWord(t[WordLen(t)..])))
  }

  /** A line as a command; it is handed on as a C string, so it ends at its first NUL. */
  function Parse(line: string): Option<Request> {
    ParseText(CString(line))
  }

  /** The results that `f` has for the elements of `s`, in order. */
  function FilterMap<A, B>(s: seq<A>, f: A -> Option<B>): seq<B> {
    if s == [] then []
    else
      var before, last := FilterMap(s[..|s| - 1], f), f(s[|s| - 1]);
      if last.None? then before else before + [last.value]
  }

  lemma FilterMapStep<A, B>(s: seq<A>, last: A, f: A -> Option<B>)
    ensures FilterMap(s + [last], f) == FilterMap(s, f) + AsList(f(last))
  {
    assert (s + [last])[..|s|] == s;
  }

  lemma {:induction false} FilterMapConcat<A, B>(a: seq<A>, b: seq<A>, f: A -> Option<B>)
    ensures FilterMap(a + b, f) == FilterMap(a, f) + FilterMap(b, f)
    decreases |b|
  {
    if b == [] {
      assert a + b == a;
    } else {
      var init, last := b[..|b| - 1], b[|b| - 1];
      FilterMapConcat(a, init, f);
      FilterMapStep(a + init, last, f);
      FilterMapStep(init, last, f);
      Associate(a, init, [last]);
      Associate(FilterMap(a, f), FilterMap(init, f), AsList(f(last)));
      assert b == init + [last];
    }
  }

  lemma Associate<A>(a: seq<A>, b: seq<A>, c: seq<A>)
    ensures a + b + c == a + (b + c)
  {
  }

  function AsList<A>(r: Option<A>): seq<A> {
    if r.None? then [] else [r.value]
  }

  lemma FilterMapOne<A, B>(x: A, f: A -> Option<B>)
    ensures FilterMap([x], f) == AsList(f(x))
  {
    FilterMapStep([], x, f);
    assert [] + [x] == [x];
  }

  lemma FilterMapFront<A, B>(x: A, more: seq<A>, f: A -> Option<B>)
    ensures FilterMap([x] + more, f) == AsList(f(x)) + FilterMap(more, f)
  {
    FilterMapConcat([x], more, f);
    FilterMapOne(x, f);
  }

  /** What `f` has for the first line of a stream comes before what it has for the rest. */
  lemma FirstMapped<B>(s: string, line: string, more: string, f: string -> Option<B>)
    requires Eol(s) < |s| && line == LineText(s, false) && more == s[Eol(s) + 1..]
    ensures FilterMap(Lines(s), f) == AsList(f(line)) + FilterMap(Lines(more), f) && Rest(s) == Rest(more)
  {
    LinesFront(s, line, more);
    RestFront(s, more);
    FilterMapFront(line, Lines(more), f);
  }

  /** The requests among some lines, in order. */
  function Requests(lines: seq<string>): seq<Request> {
    FilterMap(lines, Parse)
  }

  // ---------- What lines and requests are ----------

  /** A line ends at a newline, and at a carriage return in front of that; without a newline there is none. */
  lemma LinesAre(line: string, more: string)
    requires '\n' !in line
    ensures Lines(line) == [] && Rest(line) == line
    ensures Lines(line + "\n" + more) ==
            [if line != "" && line[|line| - 1] == '\r' then line[..|line| - 1] else line] + Lines(more)
    ensures Rest(line + "\n" + more) == Rest(more)
  {
    var s := line + "\n" + more;
    assert line[..|line|] == line && s[..|line|] == line;
    EolIs(line, |line|);
    EolIs(s, |line|);
    assert s[|line| + 1..] == more && (line != "" ==> s[..|line| - 1] == line[..|line| - 1]);
  }

  /** The six characters of white space. */
  predicate Blank(s: string) {
    forall i :: 0 <= i < |s| ==> s[i] == ' ' || 9 <= s[i] as int <= 13
  }

  /** Letters, the small ones made capital. */
  predicate Capital(word: string, m: string) {
    && word != "" && |m| == |word|
    && forall i :: 0 <= i < |word| ==>
         if 'a' <= word[i] <= 'z' then m[i] as int == word[i] as int - 32
         else 'A' <= word[i] <= 'Z' && m[i] == word[i]
  }

  /** White space, a word of letters, white space, and a parameter that begins with none. */
  predicate MadeOf(text: string, lead: string, word: string, gap: string, m: string, p: string) {
    && text == lead + word + gap + p && Blank(lead) && Capital(word, m) && Blank(gap)
    && (gap == "" ==> p == "") && (p != "" ==> !Blank(p[..1]))
  }

  ghost predicate ReadsAs(text: string, m: string, p: string) {
    exists lead, word, gap :: MadeOf(text, lead, word, gap, m, p)
  }

  predicate Spaces(s: string) {
    forall i :: 0 <= i < |s| ==> IsSpace(s[i])
  }

  lemma BlankIsSpaces(s: string)
    ensures Blank(s) <==> Spaces(s)
  {
    forall i | 0 <= i < |s|
      ensures s[i] == ' ' || 9 <= s[i] as int <= 13 <==> IsSpace(s[i])
    {
    }
  }

  lemma CapitalIsUpper(word: string, m: string)
    ensures Capital(word, m) <==> word != "" && AllAlpha(word) && m == Upper(word)
  {
    if Capital(word, m) {
      forall i | 0 <= i < |word|
        ensures IsAlpha(word[i]) && m[i] == Upper(word)[i]
      {
      }
    }
    if AllAlpha(word) && m == Upper(word) {
      forall i | 0 <= i < |word|
        ensures if 'a' <= word[i] <= 'z' then m[i] as int == word[i] as int - 32
                else 'A' <= word[i] <= 'Z' && m[i] == word[i]
      {
        assert IsAlpha(word[i]);
      }
    }
  }

  /** The same in the program's terms. */
  predicate Parts(text: string, lead: string, word: string, gap: string, p: string) {
    && text == lead + word + gap + p && Spaces(lead) && word != "" && AllAlpha(word) && Spaces(gap)
    && (gap == "" ==> p == "") && (p != "" ==> !IsSpace(p[0]))
  }

  lemma MadeOfParts(text: string, lead: string, word: string, gap: string, m: string, p: string)
    ensures MadeOf(text, lead, word, gap, m, p) <==> Parts(text, lead, word, gap, p) && m == Upper(word)
  {
    BlankIsSpaces(lead);
    BlankIsSpaces(gap);
    CapitalIsUpper(word, m);
    if p != "" {
      BlankIsSpaces(p[..1]);
      assert p[..1][0] == p[0];
    }
  }

  /** What is behind a word is a gap and the parameter. */
  lemma AfterSplits(after: string) returns (gap: string)
    requires after != "" ==> IsSpace(after[0])
    ensures after == gap + AfterWord(after) && Spaces(gap) && (gap == "" ==> AfterWord(after) == "")
    ensures AfterWord(after) != "" ==> !IsSpace(AfterWord(after)[0])
  {
    gap := "";
    if after != "" {
      var k := SpaceLen(after[1..]);
      gap := SpacesFront(after[0], after[1..], k);
    }
  }

  lemma SpacesFront(c: char, more: string, k: nat) returns (gap: string)
    requires IsSpace(c) && k <= |more| && forall i :: 0 <= i < k ==> IsSpace(more[i])
    ensures gap != "" && Spaces(gap) && [c] + more == gap + more[k..]
  {
    gap := [c] + more[..k];
  }

  lemma ParsedIsMade(text: string)
    requires ParseText(text).Some?
    ensures ReadsAs(text, ParseText(text).value.mnemonic, ParseText(text).value.parameter)
  {
    var lead, t := text[..SpaceLen(text)], text[SpaceLen(text)..];
    var word, after := t[..WordLen(t)], t[WordLen(t)..];
    var gap := AfterSplits(after);
    FourParts(text, lead, t, word, after, gap, AfterWord(after));
    MadeOfParts(text, lead, word, gap, Upper(word), AfterWord(after));
  }

  lemma FourParts(text: string, lead: string, t: string, word: string, after: string, gap: string, p: string)
    requires text == lead + t && t == word + after && after == gap + p
    ensures text == lead + word + gap + p
  {
  }

  lemma LeadCut(lead: string, t: string)
    requires Spaces(lead) && (t != "" ==> !IsSpace(t[0]))
    ensures SpaceLen(lead + t) == |lead| && (lead + t)[|lead|..] == t
  {
    var s := lead + t;
    assert forall i :: 0 <= i < |lead| ==> s[i] == lead[i];
    SpaceLenIs(s, |lead|);
  }

  lemma LetterIsNoSpace(c: char)
    ensures IsAlpha(c) ==> !IsSpace(c)
  {
  }

  lemma WordCut(word: string, after: string)
    requires word != "" && AllAlpha(word) && (after != "" ==> IsSpace(after[0]))
    ensures var t := word + after;
            WordLen(t) == |word| && t[..|word|] == word && t[|word|..] == after && !IsSpace(t[0])
  {
    var t := word + after;
    forall i | 0 <= i < |word|
      ensures !IsSpace(t[i])
    {
      LetterIsNoSpace(word[i]);
    }
    WordLenIs(t, |word|);
  }

  lemma MadeIsParsed(text: string, lead: string, word: string, gap: string, m: string, p: string)
    requires MadeOf(text, lead, word, gap, m, p)
    ensures ParseText(text) == Some(Request(m, p))
  {
    var after := gap + p;
    MadeOfParts(text, lead, word, gap, m, p);
    assert after != "" ==> after[0] == gap[0];
    WordCut(word, after);
    LeadCut(lead, word + after);
    FourParts(lead + (word + after), lead, word + after, word, after, gap, p);
    AfterGap(gap, p);
  }

  lemma AfterGap(gap: string, p: string)
    requires Spaces(gap) && (gap == "" ==> p == "") && (p != "" ==> !IsSpace(p[0]))
    ensures AfterWord(gap + p) == p
  {
    if gap == "" {
      assert gap + p == "";
    } else {
      assert gap[1..] + p == (gap + p)[1..];
      LeadCut(gap[1..], p);
    }
  }

  /** Which lines are requests, and for what: exactly those that read so, up to their first NUL. */
  lemma ParseReads(line: string, m: string, p: string)
    ensures Parse(line) == Some(Request(m, p)) <==> ReadsAs(CString(line), m, p)
  {
    var text := CString(line);
    if Parse(line) == Some(Request(m, p)) {
      ParsedIsMade(text);
    }
    if ReadsAs(text, m, p) {
      var lead, word, gap :| MadeOf(text, lead, word, gap, m, p);
      MadeIsParsed(text, lead, word, gap, m, p);
    }
  }

  // ---------- Encoding ----------

  /** A request that can be sent: a word, and a parameter that begins with no space and stays on one line. */
  predicate Sendable(r: Request) {
    && r.mnemonic != "" && AllAlpha(r.mnemonic)
    && '\n' !in r.parameter && NUL !in r.parameter
    && (r.parameter != "" ==> !IsSpace(r.parameter[0]))
  }

  function Encode(r: Request): string {
    r.mnemonic + " " + r.parameter + "\r\n"
  }

  function EncodeAll(rs: seq<Request>): string {
    if rs == [] then "" else Encode(rs[0]) + EncodeAll(rs[1..])
  }

  /** The requests as the server sees them. */
  function Seen(rs: seq<Request>): seq<Request> {
    if rs == [] then [] else [Request(Upper(rs[0].mnemonic), rs[0].parameter)] + Seen(rs[1..])
  }

  lemma {:induction false} SpaceLenIs(s: string, n: nat)
    requires n <= |s| && (n < |s| ==> !IsSpace(s[n])) && forall i :: 0 <= i < n ==> IsSpace(s[i])
    ensures SpaceLen(s) == n
  {
    if n > 0 {
      SpaceLenIs(s[1..], n - 1);
    }
  }

  lemma {:induction false} WordLenIs(s: string, n: nat)
    requires n <= |s| && (n < |s| ==> IsSpace(s[n])) && forall i :: 0 <= i < n ==> !IsSpace(s[i])
    ensures WordLen(s) == n
  {
    if n > 0 {
      WordLenIs(s[1..], n - 1);
    }
  }

  lemma {:induction false} CStringIs(s: string)
    requires NUL !in s
    ensures CString(s) == s
  {
    assert forall k :: 0 <= k < |s| ==> s[k] in s;
    assert s[..|s|] == s;
  }

  /** The text of an encoded request, without its line end. */
  lemma EncodedLine(r: Request, tail: string)
    requires Sendable(r)
    ensures var s, text := Encode(r) + tail, r.mnemonic + " " + r.parameter;
            Eol(s) == |text| + 1 && LineText(s, false) == text && s[Eol(s) + 1..] == tail
  {
    var s, text := Encode(r) + tail, r.mnemonic + " " + r.parameter;
    assert s == text + "\r\n" + tail;
    forall i | 0 <= i < |text| + 1
      ensures s[i] != '\n'
    {
      if i < |r.mnemonic| {
        assert IsAlpha(r.mnemonic[i]);
      } else if |r.mnemonic| < i < |text| {
        assert s[i] == r.parameter[i - |r.mnemonic| - 1];
      }
    }
    EolIs(s, |text| + 1);
    assert s[..|text|] == text;
  }

  lemma WordAndRest(m: string, p: string)
    requires AllAlpha(m) && m != ""
    ensures var s := m + " " + p; SpaceLen(s) == 0 && WordLen(s) == |m| && s[..|m|] == m && s[|m|..] == " " + p
  {
    var s := m + " " + p;
    assert forall i :: 0 <= i < |m| ==> s[i] == m[i] && IsAlpha(m[i]);
    assert s[|m|] == ' ';
    SpaceLenIs(s, 0);
    WordLenIs(s, |m|);
  }

  lemma NoNul(m: string, p: string)
    requires AllAlpha(m) && NUL !in p
    ensures NUL !in m + " " + p
  {
    assert forall i :: 0 <= i < |m| ==> IsAlpha(m[i]);
    assert NUL !in m;
  }

  lemma EncodedParses(r: Request)
    requires Sendable(r)
    ensures Parse(r.mnemonic + " " + r.parameter) == Some(Request(Upper(r.mnemonic), r.parameter))
  {
    var m, p := r.mnemonic, r.parameter;
    var s := m + " " + p;
    NoNul(m, p);
    CStringIs(s);
    WordAndRest(m, p);
    assert s[0..] == s;
    assert (" " + p)[1..] == p;
    SpaceLenIs(p, 0);
  }

  /** Reading back any list of requests, with an unfinished line behind it, gives exactly that list. */
  lemma {:induction false} RequestsRoundTrip(rs: seq<Request>, tail: string)
    requires (forall i :: 0 <= i < |rs| ==> Sendable(rs[i])) && '\n' !in tail
    ensures Requests(Lines(EncodeAll(rs) + tail)) == Seen(rs) && Rest(EncodeAll(rs) + tail) == tail
  {
    if rs == [] {
      assert EncodeAll(rs) + tail == tail && tail[..|tail|] == tail;
      EolIs(tail, |tail|);
    } else {
      var r, more := rs[0], EncodeAll(rs[1..]) + tail;
      assert EncodeAll(rs) + tail == Encode(r) + more;
      EncodedLine(r, more);
      RequestsRoundTrip(rs[1..], tail);
      EncodedParses(r);
      var line := r.mnemonic + " " + r.parameter;
      FilterMapConcat([line], Lines(more), Parse);
      assert Requests([line]) == [Request(Upper(r.mnemonic), r.parameter)] by {
        assert [line][..0] == [] && Requests([line][..0]) == [];
      }
    }
  }

  /** A stream of requests fits when each of them does. */
  lemma {:induction false} EncodedFits(rs: seq<Request>, tail: string, capacity: nat)
    requires forall i :: 0 <= i < |rs| ==> Sendable(rs[i]) && |Encode(rs[i])| <= capacity
    requires '\n' !in tail && |tail| < capacity
    ensures Fits(EncodeAll(rs) + tail, capacity)
  {
    if rs == [] {
      assert EncodeAll(rs) + tail == tail && tail[..|tail|] == tail;
      EolIs(tail, |tail|);
    } else {
      var r, more := rs[0], EncodeAll(rs[1..]) + tail;
      assert EncodeAll(rs) + tail == Encode(r) + more;
      EncodedLine(r, more);
      EncodedFits(rs[1..], tail, capacity);
    }
  }
}
