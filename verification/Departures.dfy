/** When a client that quits is let go, and what of its requests is served by then. */
module Departures {
  import opened Ctype
  import opened Framing
  import opened Serving
  import opened Sessions

  // ---------- Standing QUITs among requests ----------

  predicate Asks(r: Request, word: string) {
    r.mnemonic == word
  }

  /** USER and REIN start over. */
  predicate StartsOver(r: Request) {
    Asks(r, "USER") || Asks(r, "REIN")
  }

  /** Among these requests is a QUIT that none after it has started over. */
  ghost predicate QuitAsked(rs: seq<Request>) {
    exists i: nat {:trigger rs[i]} :: i < |rs| && Asks(rs[i], "QUIT") && NoneStartsOver(rs, i)
  }

  predicate NoneStartsOver(rs: seq<Request>, i: nat) {
    forall k {:trigger rs[k]} :: i < k < |rs| ==> !StartsOver(rs[k])
  }

  lemma NoneStartsOverStep(rs: seq<Request>, r: Request, i: nat)
    requires i < |rs|
    ensures NoneStartsOver(rs + [r], i) <==> NoneStartsOver(rs, i) && !StartsOver(r)
  {
    var more := rs + [r];
    assert more[|rs|] == r;
    assert forall k :: i < k < |rs| ==> more[k] == rs[k];
  }

  lemma QuitAskedStep(rs: seq<Request>, r: Request)
    ensures QuitAsked(rs + [r]) <==> if StartsOver(r) then false else Asks(r, "QUIT") || QuitAsked(rs)
  {
    var more := rs + [r];
    assert more[|rs|] == r && NoneStartsOver(more, |rs|);
    forall i: nat | i < |rs|
      ensures more[i] == rs[i] && (NoneStartsOver(more, i) <==> NoneStartsOver(rs, i) && !StartsOver(r))
    {
      NoneStartsOverStep(rs, r, i);
    }
  }

  /** Whether a QUIT stands is a matter of the requests that were executed. */
  lemma {:induction false} QuitsAgree(log: seq<Event>)
    ensures QuitStands(log) <==> QuitAsked(Asked(log))
  {
    if log != [] {
      var init, e := log[..|log| - 1], log[|log| - 1];
      QuitsAgree(init);
      assert log == init + [e];
      QuitStep(init, e);
      FilterMapStep(init, e, AsRequest);
      QuitsAgreeStep(Asked(init), e);
    }
  }

  lemma QuitsAgreeStep(asked: seq<Request>, e: Event)
    ensures QuitAsked(asked + AsList(AsRequest(e))) <==> if Resets(e) then false else Is(e, "QUIT") || QuitAsked(asked)
  {
    if e.Invoked? {
      QuitAskedStep(asked, Request(e.mnemonic, e.parameter));
    } else {
      assert asked + [] == asked;
    }
  }

  // ---------- Departures from a stream ----------

  /** The requests in a stream's front of this length. */
  function Front(stream: string, pos: nat): seq<Request>
    requires pos <= |stream|
  {
    Requests(Lines(stream[..pos]))
  }

  /** A turn that ends with so much of the stream received leaves a QUIT standing, and so the client is let go. */
  ghost predicate Departs(stream: string, pos: nat)
    requires pos <= |stream|
  {
    QuitAsked(Front(stream, pos))
  }

  /** Requests received early are still there when more has come. */
  lemma FrontGrows(stream: string, pos: nat)
    requires pos <= |stream|
    ensures Front(stream, pos) <= Requests(Lines(stream))
  {
    RequestsGrow(stream[..pos], stream[pos..], stream);
  }

  lemma RequestsGrow(front: string, more: string, stream: string)
    requires stream == front + more
    ensures Requests(Lines(front)) <= Requests(Lines(stream))
  {
    RequestsConcat(front, more);
    IsPrefix(Requests(Lines(front)), Requests(Lines(Rest(front) + more)));
  }

  lemma IsPrefix<A>(a: seq<A>, b: seq<A>)
    ensures a <= a + b
  {
  }

  /** The stream is these requests, encoded, and part of another. */
  predicate Encodes(stream: string, requests: seq<Request>, tail: string) {
    (forall i :: 0 <= i < |requests| ==> Sendable(requests[i])) && '\n' !in tail && stream == EncodeAll(requests) + tail
  }

  lemma EncodedRequests(stream: string, requests: seq<Request>, tail: string)
    requires Encodes(stream, requests, tail)
    ensures Requests(Lines(stream)) == Seen(requests) && Rest(stream) == tail
  {
    RequestsRoundTrip(requests, tail);
  }

  /** No request but the last asks to quit. */
  ghost predicate QuitsLast(rs: seq<Request>) {
    forall i {:trigger rs[i]} :: 0 <= i < |rs| - 1 ==> !Asks(rs[i], "QUIT")
  }

  /** Wherever a turn leaves a QUIT standing, all the requests of the stream have been served. */
  ghost predicate ServedBeforeLeaving(stream: string) {
    forall pos: nat {:trigger Departs(stream, pos)} ::
      pos <= |stream| && Departs(stream, pos) ==> Front(stream, pos) == Requests(Lines(stream))
  }

  /** If only the last request asks to quit, a QUIT stands only when all have been served. */
  lemma LastQuitServed(stream: string, pos: nat)
    requires pos <= |stream| && QuitsLast(Requests(Lines(stream))) && Departs(stream, pos)
    ensures Front(stream, pos) == Requests(Lines(stream))
  {
    FrontGrows(stream, pos);
    var rs, all := Front(stream, pos), Requests(Lines(stream));
    var i: nat :| i < |rs| && Asks(rs[i], "QUIT") && NoneStartsOver(rs, i);
    assert rs[i] == all[i];
  }

  lemma {:induction false} EncodeAllConcat(a: seq<Request>, b: seq<Request>)
    ensures EncodeAll(a + b) == EncodeAll(a) + EncodeAll(b)
    decreases |a|
  {
    if a == [] {
      assert a + b == b;
    } else {
      EncodeAllConcat(a[1..], b);
      assert (a + b)[1..] == a[1..] + b;
    }
  }

  lemma SeenAt(rs: seq<Request>)
    ensures |Seen(rs)| == |rs|
    ensures forall i :: 0 <= i < |rs| ==> Seen(rs)[i] == Request(Upper(rs[i].mnemonic), rs[i].parameter)
  {
  }

  lemma SeenFront(rs: seq<Request>, n: nat)
    requires n <= |rs|
    ensures |Seen(rs)| == |rs| && Seen(rs[..n]) == Seen(rs)[..n]
  {
    SeenAt(rs);
    SeenAt(rs[..n]);
  }

  /** Cut right behind some of its requests, the stream holds just those. */
  lemma FrontOfEncoded(stream: string, first: seq<Request>, more: seq<Request>, tail: string)
    requires Encodes(stream, first + more, tail)
    ensures |EncodeAll(first)| <= |stream| && Front(stream, |EncodeAll(first)|) == Seen(first)
  {
    var text := EncodeAll(first);
    EncodeAllConcat(first, more);
    assert stream[..|text|] == text && text + "" == text;
    assert forall i :: 0 <= i < |first| ==> (first + more)[i] == first[i];
    RequestsRoundTrip(first, "");
  }

  lemma LastAsks(rs: seq<Request>)
    requires rs != [] && Asks(rs[|rs| - 1], "QUIT")
    ensures QuitAsked(rs)
  {
    assert NoneStartsOver(rs, |rs| - 1);
  }

  /** Cut right behind a QUIT, the stream has been served only so far. */
  lemma {:induction false} QuitCutsOff(stream: string, requests: seq<Request>, tail: string, i: nat)
    requires Encodes(stream, requests, tail) && i < |requests|
    requires |Seen(requests)| == |requests| && Asks(Seen(requests)[i], "QUIT")
    ensures var cut := |EncodeAll(requests[..i + 1])|;
            cut <= |stream| && Departs(stream, cut) && Front(stream, cut) == Seen(requests)[..i + 1]
  {
    var first, more := requests[..i + 1], requests[i + 1..];
    assert first + more == requests;
    FrontOfEncoded(stream, first, more, tail);
    SeenFront(requests, i + 1);
    LastAsks(Seen(first));
  }

  /**
   * However the stream is cut into chunks, all its requests are served before the client is let go, exactly when
   * none of them but the last asks to quit.
   */
  lemma WholeUnderEveryChunking(stream: string, requests: seq<Request>, tail: string)
    requires Encodes(stream, requests, tail)
    ensures ServedBeforeLeaving(stream) <==> QuitsLast(Seen(requests))
  {
    EncodedRequests(stream, requests, tail);
    SeenFront(requests, 0);
    if QuitsLast(Seen(requests)) {
      forall pos: nat | pos <= |stream| && Departs(stream, pos)
        ensures Front(stream, pos) == Requests(Lines(stream))
      {
        LastQuitServed(stream, pos);
      }
    } else {
      var i: nat :| i < |requests| - 1 && Asks(Seen(requests)[i], "QUIT");
      QuitCutsOff(stream, requests, tail, i);
      assert Departs(stream, |EncodeAll(requests[..i + 1])|);
    }
  }

  // ---------- The smallest streams that depend on how they are cut ----------

  /** A request for this word that can be sent, and is seen as it is. */
  predicate Plainly(r: Request, word: string) {
    Sendable(r) && Upper(r.mnemonic) == r.mnemonic && Asks(r, word)
  }

  /** A QUIT in front is all that is served of a list that is cut behind it. */
  lemma {:induction false} CutBehindQuit(requests: seq<Request>)
    requires requests != [] && Asks(requests[0], "QUIT")
    requires forall r :: r in requests ==> Sendable(r) && Upper(r.mnemonic) == r.mnemonic
    ensures var stream, cut := EncodeAll(requests), |Encode(requests[0])|;
            && Requests(Lines(stream)) == requests && cut <= |stream|
            && Departs(stream, cut) && Front(stream, cut) == [requests[0]]
  {
    var stream := EncodeAll(requests);
    SeenAsTheyAre(requests);
    assert stream + "" == stream;
    EncodedRequests(stream, requests, "");
    QuitCutsOff(stream, requests, "", 0);
    OneEncoded(requests, requests[..1]);
  }

  lemma OneEncoded(requests: seq<Request>, one: seq<Request>)
    requires requests != [] && one == requests[..1]
    ensures one == [requests[0]] && EncodeAll(one) == Encode(requests[0])
  {
    assert one[1..] == [] && EncodeAll([]) == "";
  }

  lemma SeenAsTheyAre(requests: seq<Request>)
    requires forall r :: r in requests ==> Upper(r.mnemonic) == r.mnemonic
    ensures Seen(requests) == requests
  {
    SeenAt(requests);
    forall i | 0 <= i < |requests|
      ensures Seen(requests)[i] == requests[i]
    {
      assert requests[i] in requests;
    }
  }

  /** Behind a QUIT, cut off from it, nothing is served; in one piece, a REIN in time takes the QUIT back. */
  lemma {:induction false} TakenBackInTime(quit: Request, again: Request, last: Request)
    requires Plainly(quit, "QUIT") && Plainly(again, "REIN") && Plainly(last, "NOOP")
    ensures var stream, cut := EncodeAll([quit, again, last]), |Encode(quit)|;
            && Front(stream, |stream|) == [quit, again, last] && !Departs(stream, |stream|)
            && cut <= |stream| && Departs(stream, cut) && Front(stream, cut) == [quit]
  {
    var requests := [quit, again, last];
    var stream := EncodeAll(requests);
    assert requests[0] == quit;
    CutBehindQuit(requests);
    assert stream[..|stream|] == stream;
    TakenBack(quit, again, last);
  }

  lemma TakenBack(quit: Request, again: Request, last: Request)
    requires StartsOver(again) && !Asks(last, "QUIT")
    ensures !QuitAsked([quit, again, last])
  {
    QuitAskedStep([quit], again);
    QuitAskedStep([quit, again], last);
    assert [quit] + [again] == [quit, again] && [quit, again] + [last] == [quit, again, last];
  }

  const QUIT := Request("QUIT", "")
  const REIN := Request("REIN", "")
  const NOOP := Request("NOOP", "")

  lemma PlainWord(r: Request)
    requires r.mnemonic in ["QUIT", "REIN", "NOOP"] && r.parameter == ""
    ensures Plainly(r, r.mnemonic)
  {
    assert forall i :: 0 <= i < |r.mnemonic| ==> IsUpper(r.mnemonic[i]);
  }

  /** Cut behind its QUIT, this stream is served no further; in one piece it is served whole. */
  lemma {:induction false} ReinInTime()
    ensures var stream, cut := EncodeAll([QUIT, REIN, NOOP]), |Encode(QUIT)|;
            && Front(stream, |stream|) == [QUIT, REIN, NOOP] && !Departs(stream, |stream|)
            && cut <= |stream| && Departs(stream, cut) && Front(stream, cut) == [QUIT]
  {
    PlainWord(QUIT);
    PlainWord(REIN);
    PlainWord(NOOP);
    TakenBackInTime(QUIT, REIN, NOOP);
  }

  /** Behind a QUIT that it is cut off from, a NOOP is never served. */
  lemma QuitThenNoop()
    ensures var stream, cut := EncodeAll([QUIT, NOOP]), |Encode(QUIT)|;
            && Requests(Lines(stream)) == [QUIT, NOOP] && cut <= |stream|
            && Departs(stream, cut) && Front(stream, cut) == [QUIT]
  {
    PlainWord(QUIT);
    PlainWord(NOOP);
    CutBehindQuit([QUIT, NOOP]);
  }
}
