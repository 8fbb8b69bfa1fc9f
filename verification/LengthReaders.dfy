/**
  A reader that holds a body to its declared length, whatever the body does and however
  the caller reads.
 */
module LengthReaders {
  import opened Wrappers

  type Byte = bv8

  datatype Error =
    | EOF
    | Mismatch
    | NoProgress
    | InvalidCount
    | Failed(code: nat)

  /** What one Read of the body gives: bytes and possibly an error, or a count that makes no sense. */
  datatype Reply = Bytes(data: seq<Byte>, err: Option<Error>) | Invalid

  /** The body's reply to its k-th Read, for a buffer of the given length. */
  type Body = (nat, nat) -> Reply

  const MAX_ZERO_READS: nat := 100

  /** The reply has a count below zero or above the length of the buffer. */
  predicate Bad(r: Reply, len: nat) {
    r.Invalid? || |r.data| > len
  }

  /**
    read counts the bytes taken for the caller. The rest is history: the Reads of the body
    and the last buffer, the bytes the body has given, those handed on, and whether the
    body has ended.
   */
  datatype State = State(
    read: nat,
    err: Option<Error>,
    calls: nat,
    asked: nat,
    received: seq<Byte>,
    delivered: seq<Byte>,
    ended: bool)

  const START := State(0, None, 0, 0, [], [], false)

  /** One Read of the body with a buffer of len bytes; the bytes of a bad reply are not taken. */
  function Called(body: Body, s: State, len: nat): State {
    var r := body(s.calls, len);
    var data := if Bad(r, len) then [] else r.data;
    s.(calls := s.calls + 1, asked := len, received := s.received + data,
       ended := s.ended || (r.Bytes? && r.err == Some(EOF)))
  }

  /** Reads one byte past the declared length, at most tries times. */
  function Probed(body: Body, s: State, tries: nat): State
    decreases tries
  {
    if tries == 0 then s.(err := Some(NoProgress))
    else
      var r := body(s.calls, 1);
      var next := Called(body, s, 1);
      if Bad(r, 1) then next.(err := Some(InvalidCount))
      else if r.data != [] then next.(err := Some(Mismatch))
      else if r.err.Some? then next.(err := r.err)
      else Probed(body, next, tries - 1)
  }

  /** One Read by the caller with a buffer of len bytes. */
  function Stepped(body: Body, want: nat, s: State, len: nat): State
    requires s.err.None? ==> s.read <= want
  {
    if s.err.Some? then s
    else if s.read == want then Probed(body, s, MAX_ZERO_READS)
    else if len == 0 then s
    else
      var m := if len > want - s.read then want - s.read else len;
      var r := body(s.calls, m);
      var next := Called(body, s, m);
      if Bad(r, m) then next.(err := Some(InvalidCount))
      else Settled(body, want, next.(read := s.read + |r.data|), r)
  }

  /** Settles the outcome of a reply that has been counted; bytes are withheld from a body that is too long. */
  function Settled(body: Body, want: nat, s: State, r: Reply): State
    requires r.Bytes?
  {
    if r.err == Some(EOF) && s.read < want then s.(err := Some(Mismatch), delivered := s.delivered + r.data)
    else if r.err.Some? && r.err != Some(EOF) then s.(err := r.err, delivered := s.delivered + r.data)
    else if s.read == want then
      var p := Probed(body, s, MAX_ZERO_READS);
      if p.err == Some(Mismatch) then p else p.(delivered := s.delivered + r.data)
    else s.(delivered := s.delivered + r.data)
  }

  // ---------------------------------------------------------------------------
  // What holds after any Reads
  // ---------------------------------------------------------------------------

  /** The last tries replies were empty, with no error. */
  ghost predicate Stalled(body: Body, calls: nat, tries: nat) {
    tries <= calls && forall j :: calls - tries <= j < calls ==> body(j, 1) == Bytes([], None)
  }

  ghost predicate LastReply(body: Body, s: State, r: Reply) {
    s.calls > 0 && body(s.calls - 1, s.asked) == r
  }

  ghost predicate GaveError(body: Body, s: State, e: Error) {
    s.calls > 0 && body(s.calls - 1, s.asked).Bytes? && body(s.calls - 1, s.asked).err == Some(e)
  }

  /** The error is the body's own, and everything it gave was handed on. */
  ghost predicate PassedOn(body: Body, want: nat, s: State, e: Error) {
    |s.received| <= want && s.delivered == s.received && GaveError(body, s, e)
  }

  /**
    The error tells what the body did. Whatever error a body gives is passed on, so a body
    that holds itself to a length can report a mismatch of its own; one that comes after
    the declared bytes withholds the last of them.
   */
  ghost predicate Explained(body: Body, want: nat, s: State, e: Error) {
    match e
    case EOF => s.ended && |s.received| == want && s.delivered == s.received
    case Mismatch =>
      || (s.ended && |s.received| < want && s.delivered == s.received)
      || (|s.received| > want && (want > 0 ==> |s.delivered| < want))
      || (|s.received| == want && (want > 0 ==> |s.delivered| < want) && GaveError(body, s, Mismatch))
      || PassedOn(body, want, s, Mismatch)
    case NoProgress =>
      || (|s.received| == want && s.delivered == s.received && Stalled(body, s.calls, MAX_ZERO_READS))
      || PassedOn(body, want, s, e)
    case InvalidCount =>
      || (|s.received| <= want && s.delivered == s.received && s.calls > 0 && Bad(body(s.calls - 1, s.asked), s.asked))
      || PassedOn(body, want, s, e)
    case Failed(_) => PassedOn(body, want, s, e)
  }

  ghost predicate Inv(body: Body, want: nat, s: State) {
    && s.delivered <= s.received && |s.delivered| <= want
    && (s.err.None? ==> s.delivered == s.received && |s.received| == s.read && !s.ended && (s.read < want || want == 0))
    && (s.err.None? ==> s.read <= want)
    && (s.err.Some? ==> Explained(body, want, s, s.err.value))
  }

  lemma CalledIs(body: Body, s: State, len: nat)
    ensures var r, n := body(s.calls, len), Called(body, s, len);
      && n.calls == s.calls + 1 && n.asked == len && n.read == s.read && n.err == s.err && n.delivered == s.delivered
      && n.received == s.received + (if Bad(r, len) then [] else r.data)
      && body(n.calls - 1, n.asked) == r
  {
  }

  /** What a probe finds, from a body that has given exactly the declared bytes. */
  lemma {:induction false} ProbeFinds(body: Body, want: nat, s: State, tries: nat)
    requires |s.received| == want && tries <= MAX_ZERO_READS && Stalled(body, s.calls, MAX_ZERO_READS - tries)
    ensures var p := Probed(body, s, tries);
      && p.err.Some? && p.delivered == s.delivered && s.received <= p.received
      && if p.err == Some(Mismatch) then |p.received| > want || (|p.received| == want && GaveError(body, p, Mismatch))
         else Explained(body, want, p.(delivered := s.received), p.err.value)
    decreases tries
  {
    if tries > 0 {
      CalledIs(body, s, 1);
      var r := body(s.calls, 1);
      if !Bad(r, 1) && r.data == [] && r.err.None? {
        assert r == Bytes([], None);
        ProbeFinds(body, want, Called(body, s, 1), tries - 1);
      }
    }
  }

  lemma SettleKeeps(body: Body, want: nat, s: State, m: nat, r: Reply)
    requires r.Bytes? && LastReply(body, s, r) && |r.data| <= m == s.asked
    requires |s.received| == s.read <= want && s.received == s.delivered + r.data && |r.data| <= want
    requires s.err.None? && (s.ended <==> r.err == Some(EOF)) && want > 0 && |s.delivered| < want
    ensures Inv(body, want, Settled(body, want, s, r))
  {
    if s.read == want {
      ProbeFinds(body, want, s, MAX_ZERO_READS);
    }
  }

  /** A Read of the body that leaves bytes to go, or takes the last. */
  lemma TakeKeeps(body: Body, want: nat, s: State, m: nat)
    requires Inv(body, want, s) && s.err.None? && 0 < m <= want - s.read
    ensures var r, next := body(s.calls, m), Called(body, s, m);
      Inv(body, want,
          if Bad(r, m) then next.(err := Some(InvalidCount))
          else Settled(body, want, next.(read := s.read + |r.data|), r))
  {
    var r := body(s.calls, m);
    CalledIs(body, s, m);
    if !Bad(r, m) {
      SettleKeeps(body, want, Called(body, s, m).(read := s.read + |r.data|), m, r);
    }
  }

  /** Every Read keeps it, so it holds after any sequence of Reads. */
  lemma ReadKeeps(body: Body, want: nat, s: State, len: nat)
    requires Inv(body, want, s)
    ensures Inv(body, want, Stepped(body, want, s, len))
  {
    if s.err.None? && s.read == want {
      ProbeFinds(body, want, s, MAX_ZERO_READS);
    } else if s.err.None? && len > 0 {
      TakeKeeps(body, want, s, if len > want - s.read then want - s.read else len);
    }
  }

  /** The state after Reads with buffers of the given lengths. */
  ghost function After(body: Body, want: nat, lens: seq<nat>): (s: State)
    ensures Inv(body, want, s)
  {
    if lens == [] then START
    else
      var s := After(body, want, lens[..|lens| - 1]);
      ReadKeeps(body, want, s, lens[|lens| - 1]);
      Stepped(body, want, s, lens[|lens| - 1])
  }

  /**
    Against a body that holds content: the caller gets a first part of it, of the declared
    length at most; the end is reported only for a body of exactly that length, and a
    mismatch that the body did not report itself only for one of another length, which is
    never handed over up to the declared length if it is too long.
   */
  lemma Verdict(body: Body, want: nat, lens: seq<nat>, content: seq<Byte>)
    requires var s := After(body, want, lens); s.received <= content && (s.ended ==> s.received == content)
    ensures var s := After(body, want, lens);
      && s.delivered <= content && |s.delivered| <= want
      && (s.err == Some(EOF) ==> |content| == want && s.delivered == content)
      && (s.err == Some(Mismatch) && !GaveError(body, s, Mismatch) ==>
            |content| != want && (0 < want < |content| ==> |s.delivered| < want))
  {
  }

  /** A body that gives one byte together with a mismatch of its own. */
  function Complaining(x: Byte): Body {
    (k: nat, len: nat) => if k == 0 && len > 0 then Bytes([x], Some(Mismatch)) else Bytes([], Some(EOF))
  }

  /** Its mismatch is passed on, although it has the declared length and all of it is handed over. */
  lemma OwnMismatch(x: Byte)
    ensures var s := After(Complaining(x), 1, [1]);
      s.err == Some(Mismatch) && s.received == s.delivered == [x] && GaveError(Complaining(x), s, Mismatch)
  {
    assert [1][..0] == [];
    assert After(Complaining(x), 1, [1][..0]) == START;
    assert [] + [x] == [x];
  }

  /** Once there is an error, every later Read gives it again and nothing else happens. */
  lemma {:induction false} Sticky(body: Body, want: nat, lens: seq<nat>, more: seq<nat>)
    requires After(body, want, lens).err.Some?
    ensures After(body, want, lens + more) == After(body, want, lens)
    decreases |more|
  {
    if more == [] {
      assert lens + more == lens;
    } else {
      Sticky(body, want, lens, more[..|more| - 1]);
      assert (lens + more)[..|lens + more| - 1] == lens + more[..|more| - 1];
    }
  }

  lemma {:induction false} ProbeEnds(body: Body, s: State, tries: nat)
    ensures Probed(body, s, tries).err.Some?
    decreases tries
  {
    if tries > 0 {
      ProbeEnds(body, Called(body, s, 1), tries - 1);
    }
  }

  /** A Read into a buffer that does not end in an error hands over bytes, or the body's reply was empty. */
  lemma Advances(body: Body, want: nat, s: State, len: nat)
    requires Inv(body, want, s) && s.err.None? && len > 0
    requires Stepped(body, want, s, len).err.None?
    ensures var s' := Stepped(body, want, s, len);
      |s'.delivered| > |s.delivered| || body(s.calls, s'.asked) == Bytes([], None)
  {
    if s.read == want {
      ProbeEnds(body, s, MAX_ZERO_READS);
    } else {
      var m := if len > want - s.read then want - s.read else len;
      var r := body(s.calls, m);
      if !Bad(r, m) {
        ProbeEnds(body, Called(body, s, m).(read := s.read + |r.data|), MAX_ZERO_READS);
      }
    }
  }

  /** A buffer longer than what is left is used as far as that. */
  lemma StepSame(body: Body, want: nat, s: State, len: nat, m: nat)
    requires s.err.None? && s.read < want && len > 0 && m == if len > want - s.read then want - s.read else len
    ensures Stepped(body, want, s, len) == Stepped(body, want, s, m)
  {
  }

  // ---------------------------------------------------------------------------
  // The reader
  // ---------------------------------------------------------------------------

  class LengthReader {
    const body: Body
    const want: nat

    var read: nat
    var err: Option<Error>

    // How often the body has been read.
    var calls: nat

    ghost var asked: nat
    ghost var received: seq<Byte>
    ghost var delivered: seq<Byte>
    ghost var ended: bool

    ghost function S(): State
      reads this
    {
      State(read, err, calls, asked, received, delivered, ended)
    }

    constructor (body: Body, want: nat)
      ensures this.body == body && this.want == want && S() == START
    {
      this.body, this.want := body, want;
      read, err, calls, asked, received, delivered, ended := 0, None, 0, 0, [], [], false;
    }

    method ReadBody(len: nat) returns (r: Reply)
      modifies this`calls, this`asked, this`received, this`ended
      ensures r == body(old(calls), len) && S() == Called(body, old(S()), len)
    {
      r := body(calls, len);
      calls := calls + 1;
      asked := len;
      received := received + if Bad(r, len) then [] else r.data;
      ended := ended || (r.Bytes? && r.err == Some(EOF));
    }

    method Probe() returns (e: Error)
      modifies this`calls, this`asked, this`received, this`ended
      ensures S().(err := Some(e)) == Probed(body, old(S()), MAX_ZERO_READS)
      ensures err == old(err)
    {
      for i := 0 to MAX_ZERO_READS
        invariant Probed(body, S(), MAX_ZERO_READS - i) == Probed(body, old(S()), MAX_ZERO_READS)
        invariant err == old(err)
      {
        var r := ReadBody(1);
        if Bad(r, 1) {
          return InvalidCount;
        }
        if r.data != [] {
          return Mismatch;
        }
        if r.err.Some? {
          return r.err.value;
        }
      }
      e := NoProgress;
    }

    /** Reads into a buffer of len bytes. */
    method Read(len: nat) returns (data: seq<Byte>, e: Option<Error>)
      requires Inv(body, want, S())
      modifies this
      ensures S() == Stepped(body, want, old(S()), len) && Inv(body, want, S())
      ensures e == err && delivered == old(delivered) + data && |data| <= len
    {
      ghost var s := S();
      data := [];
      if err.None? && read == want {
        var found := Probe();
        err := Some(found);
      } else if err.None? && len > 0 {
        var m := if len > want - read then want - read else len;
        StepSame(body, want, s, len, m);
        data := Take(m);
      }
      e := err;
      assert S() == Stepped(body, want, s, len);
      ReadKeeps(body, want, s, len);
    }

    /** Takes up to m bytes of the body. */
    method Take(m: nat) returns (data: seq<Byte>)
      requires err.None? && read < want && 0 < m <= want - read
      modifies this`read, this`err, this`calls, this`asked, this`received, this`ended, this`delivered
      ensures S() == Stepped(body, want, old(S()), m)
      ensures delivered == old(delivered) + data && |data| <= m
    {
      var r := ReadBody(m);
      if Bad(r, m) {
        err := Some(InvalidCount);
        return [];
      }
      read := read + |r.data|;
      data := Settle(r);
    }

    method Settle(r: Reply) returns (data: seq<Byte>)
      requires r.Bytes?
      modifies this`err, this`calls, this`asked, this`received, this`ended, this`delivered
      ensures S() == Settled(body, want, old(S()), r)
      ensures delivered == old(delivered) + data && |data| <= |r.data|
    {
      data := r.data;
      if r.err == Some(EOF) && read < want {
        err := Some(Mismatch);
      } else if r.err.Some? && r.err != Some(EOF) {
        err := r.err;
      } else if read == want {
        var found := Probe();
        err := Some(found);
        if found == Mismatch {
          return [];
        }
      }
      delivered := delivered + data;
    }
  }

  /** A negative length matches no body; without a length the body is read as it is. */
  method CheckLength(body: Body, n: Option<int>) returns (e: Option<Error>, reader: LengthReader?)
    ensures e == if n.Some? && n.value < 0 then Some(Mismatch) else None
    ensures reader != null <==> n.Some? && n.value >= 0
    ensures reader != null ==> fresh(reader) && reader.body == body && reader.want == n.value && reader.S() == START
  {
    reader := null;
    if n.None? {
      return None, null;
    }
    if n.value < 0 {
      return Some(Mismatch), null;
    }
    e := None;
    reader := new LengthReader(body, n.value);
  }
}
