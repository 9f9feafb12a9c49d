/** The call bookkeeping of the SIP client: the per-call DTMF buffer that
    collects digits until '#', the current-call slot of the client, the
    automatic answer, and the disconnect notification. */
module SipHandler {
  import opened Wrappers

  const Terminator: char := '#'

  predicate HashFree(s: string) {
    Terminator !in s
  }

  /** The maximal '#'-free runs of a digit stream, in order: one more run
      than there are '#'s, the last one still open. */
  function Segments(digits: seq<char>): (segs: seq<string>)
    ensures |segs| >= 1
    ensures forall i :: 0 <= i < |segs| ==> HashFree(segs[i])
  {
    if digits == [] then [[]]
    else
      var init, d := digits[..|digits| - 1], digits[|digits| - 1];
      assert digits == init + [d];
      var segs := Segments(init);
      if d == Terminator then segs + [[]]
      else segs[..|segs| - 1] + [segs[|segs| - 1] + [d]]
  }

  /** The runs glued back together with '#' between them. */
  function Join(segs: seq<string>): string
    requires |segs| >= 1
  {
    if |segs| == 1 then segs[0]
    else Join(segs[..|segs| - 1]) + [Terminator] + segs[|segs| - 1]
  }

  /** The non-empty strings of `segs`, in order. */
  function NonEmpty(segs: seq<string>): (r: seq<string>)
    ensures forall i :: 0 <= i < |r| ==> r[i] != [] && r[i] in segs
  {
    if segs == [] then []
    else NonEmpty(segs[..|segs| - 1]) + (if segs[|segs| - 1] == [] then [] else [segs[|segs| - 1]])
  }

  /** What the buffer holds after a digit stream: the run after the last '#'. */
  function Pending(digits: seq<char>): (buffer: string)
    ensures HashFree(buffer)
  {
    var segs := Segments(digits);
    segs[|segs| - 1]
  }

  /** The codes the stream closes: every non-empty run that a '#' ends. */
  function Codes(digits: seq<char>): (codes: seq<string>)
    ensures forall i :: 0 <= i < |codes| ==> codes[i] != [] && HashFree(codes[i])
  {
    var segs := Segments(digits);
    NonEmpty(segs[..|segs| - 1])
  }

  /** Splitting at '#' loses nothing: joining the runs gives the stream back. */
  lemma {:induction false} JoinSegments(digits: seq<char>)
    ensures Join(Segments(digits)) == digits
  {
    if digits != [] {
      var init, d := digits[..|digits| - 1], digits[|digits| - 1];
      assert digits == init + [d];
      JoinSegments(init);
      var segs := Segments(init);
      if d != Terminator {
        var n := |segs|;
        var segs' := segs[..n - 1] + [segs[n - 1] + [d]];
        if n > 1 {
          assert segs'[..n - 1] == segs[..n - 1];
          assert Join(segs) == Join(segs[..n - 1]) + [Terminator] + segs[n - 1];
        }
      } else {
        var segs' := segs + [[]];
        assert segs'[..|segs|] == segs;
      }
    }
  }

  /** Appending a '#'-free string extends the last run. */
  lemma {:induction false} SegmentsExtend(digits: seq<char>, run: string)
    requires HashFree(run)
    ensures var segs := Segments(digits);
            Segments(digits + run) == segs[..|segs| - 1] + [segs[|segs| - 1] + run]
  {
    var segs := Segments(digits);
    if run == [] {
      assert digits + run == digits;
      assert segs[|segs| - 1] + run == segs[|segs| - 1];
      SplitLast(segs);
    } else {
      var init, d := run[..|run| - 1], run[|run| - 1];
      SplitLast(run);
      assert d in run;
      SegmentsExtend(digits, init);
      var front, open := segs[..|segs| - 1], segs[|segs| - 1];
      SnocParts(front, open + init);
      OpenRun(digits + init, d);
      AppendAssoc(digits, init, [d]);
      AppendAssoc(open, init, [d]);
    }
  }

  /** The splitting is the only one: '#'-free runs joined with '#' split
      back into exactly those runs. */
  lemma {:induction false} SegmentsJoin(segs: seq<string>)
    requires |segs| >= 1
    requires forall i :: 0 <= i < |segs| ==> HashFree(segs[i])
    ensures Segments(Join(segs)) == segs
  {
    var n := |segs|;
    if n == 1 {
      SegmentsExtend([], segs[0]);
      assert [] + segs[0] == segs[0];
    } else {
      var front, last := segs[..n - 1], segs[n - 1];
      assert forall i :: 0 <= i < n - 1 ==> front[i] == segs[i];
      SegmentsJoin(front);
      var closed := Join(front) + [Terminator];
      ClosingRun(Join(front));
      var s := front + [[]];
      assert Segments(closed) == s;
      SegmentsExtend(closed, last);
      assert Segments(closed + last) == s[..n - 1] + [s[n - 1] + last];
      assert s[..n - 1] == front && s[n - 1] + last == last;
      JoinLast(segs);
      SplitLast(segs);
    }
  }

  /** A non-empty sequence is its front followed by its last element. */
  lemma SplitLast<T>(s: seq<T>)
    requires |s| > 0
    ensures s[..|s| - 1] + [s[|s| - 1]] == s
  {
  }

  /** The front and the last element of a sequence built by appending one. */
  lemma SnocParts<T>(front: seq<T>, x: T)
    ensures |front + [x]| == |front| + 1
    ensures (front + [x])[..|front|] == front && (front + [x])[|front|] == x
  {
    assert (front + [x])[..|front|] == front;
  }

  lemma AppendAssoc<T>(a: seq<T>, b: seq<T>, c: seq<T>)
    ensures a + (b + c) == (a + b) + c
  {
  }

  /** The last run is glued on after a '#'. */
  lemma JoinLast(segs: seq<string>)
    requires |segs| > 1
    ensures Join(segs) == Join(segs[..|segs| - 1]) + [Terminator] + segs[|segs| - 1]
  {
  }

  /** A '#' closes the open run and starts an empty one. */
  lemma ClosingRun(digits: seq<char>)
    ensures Segments(digits + [Terminator]) == Segments(digits) + [[]]
  {
    var closed := digits + [Terminator];
    assert closed[..|closed| - 1] == digits;
  }

  /** Any other digit extends the open run. */
  lemma OpenRun(digits: seq<char>, d: char)
    requires d != Terminator
    ensures var segs := Segments(digits);
            Segments(digits + [d]) == segs[..|segs| - 1] + [segs[|segs| - 1] + [d]]
  {
    var extended := digits + [d];
    assert extended[..|extended| - 1] == digits;
  }

  /** Telephony invitation states as the SIP stack reports them. */
  datatype InvState = Null | Calling | Incoming | Early | Connecting | Confirmed | Disconnected

  /** The client: which callbacks it was given, and the current call. */
  class Client {
    const hasDtmfCallback: bool
    const hasDisconnectCallback: bool
    var currentCall: Call?

    constructor (hasDtmfCallback: bool, hasDisconnectCallback: bool)
      ensures this.hasDtmfCallback == hasDtmfCallback
      ensures this.hasDisconnectCallback == hasDisconnectCallback
      ensures currentCall == null
    {
      this.hasDtmfCallback := hasDtmfCallback;
      this.hasDisconnectCallback := hasDisconnectCallback;
      currentCall := null;
    }
  }

  /** The registered account, which receives incoming calls. */
  class Account {
    const client: Client

    constructor (client: Client)
      ensures this.client == client
    {
      this.client := client;
    }

    /** Creates the call object, makes it current and answers it with 200. */
    method OnIncomingCall(callId: int) returns (call: Call, status: int)
      modifies client
      ensures fresh(call) && call.Valid()
      ensures call.client == client && call.callId == callId
      ensures call.dtmfBuffer == "" && !call.hasPlayer && call.received == []
      ensures client.currentCall == call
      ensures status == 200
    {
      call := new Call(client, callId);
      client.currentCall := call;
      status := 200;
    }
  }

  /** One call. `received` is every digit the call has been given and
      `delivered` every string handed to the DTMF callback. */
  class Call {
    const client: Client
    const callId: int
    var hasPlayer: bool
    var dtmfBuffer: string
    ghost var received: seq<char>
    ghost var delivered: seq<string>

    /** The buffer is the open run of the stream, and the callback has been
        given exactly the closed non-empty runs (none without a callback). */
    ghost predicate Valid()
      reads this
    {
      && dtmfBuffer == Pending(received)
      && delivered == (if client.hasDtmfCallback then Codes(received) else [])
    }

    constructor (client: Client, callId: int)
      ensures Valid()
      ensures this.client == client && this.callId == callId
      ensures !hasPlayer && dtmfBuffer == "" && received == [] && delivered == []
    {
      this.client := client;
      this.callId := callId;
      hasPlayer := false;
      dtmfBuffer := "";
      received := [];
      delivered := [];
    }

    /** One DTMF digit. `code` is the argument the callback is invoked with,
        if it is invoked. */
    method OnDtmfDigit(digit: char) returns (code: Option<string>)
      requires Valid()
      modifies this`dtmfBuffer, this`received, this`delivered
      ensures Valid()
      ensures received == old(received) + [digit]
      ensures digit != Terminator ==> dtmfBuffer == old(dtmfBuffer) + [digit] && code == None
      ensures digit == Terminator ==> dtmfBuffer == ""
      ensures code == if digit == Terminator && client.hasDtmfCallback && old(dtmfBuffer) != ""
                      then Some(old(dtmfBuffer)) else None
      ensures delivered == old(delivered) + (if code.Some? then [code.value] else [])
    {
      received := received + [digit];
      assert received[..|received| - 1] == old(received);
      code := None;
      if digit == Terminator {
        if client.hasDtmfCallback && dtmfBuffer != "" {
          code := Some(dtmfBuffer);
          delivered := delivered + [dtmfBuffer];
        }
        dtmfBuffer := "";
      } else {
        dtmfBuffer := dtmfBuffer + [digit];
      }
      ghost var segs := Segments(old(received));
      if digit == Terminator {
        assert (segs + [[]])[..|segs|] == segs;
      } else {
        assert (segs[..|segs| - 1] + [segs[|segs| - 1] + [digit]])[..|segs| - 1] == segs[..|segs| - 1];
      }
    }

    /** A state change; only DISCONNECTED does anything. `notified` tells
        whether the disconnect callback ran. */
    method OnCallState(state: InvState) returns (notified: bool)
      modifies client, this`hasPlayer
      ensures state == Disconnected ==>
        client.currentCall == null && !hasPlayer && notified == client.hasDisconnectCallback
      ensures state != Disconnected ==>
        client.currentCall == old(client.currentCall) && hasPlayer == old(hasPlayer) && !notified
    {
      notified := false;
      if state == Disconnected {
        client.currentCall := null;
        hasPlayer := false;
        if client.hasDisconnectCallback {
          notified := true;
        }
      }
    }
  }
}
