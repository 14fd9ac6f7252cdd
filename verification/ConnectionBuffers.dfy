/**
 * The buffers that carry tokens between regions: event_buffer<T>, event_buffer<void> and
 * state_buffer.  Each class is proved against functions on values (Cells), and these functions
 * are the ones the scheduler's state machine uses.
 */
module ConnectionBuffers {
  /** The three buffers of event_buffer<T> and its flag "middle has been read". */
  datatype Cells<T> = Cells(intern: seq<T>, middle: seq<T>, extern: seq<T>, read: bool) {
    /** What is still under way, oldest first. */
    function Content(): seq<T> { extern + middle + intern }

    /** Nothing is left in the middle once it has been read. */
    predicate Fresh() { read ==> middle == [] }
  }

  function SwitchActive<T>(b: Cells<T>): Cells<T> {
    Cells([], if b.read then b.intern else b.middle + b.intern, b.extern, false)
  }

  function SwitchPassive<T>(b: Cells<T>): Cells<T> {
    Cells(b.intern, [], b.middle, true)
  }

  function SwitchActivePassive<T>(b: Cells<T>): Cells<T> {
    Cells([], b.middle, b.extern + b.intern, b.read)
  }

  /** The active side's switch neither loses nor reorders anything. */
  lemma SwitchActiveKeeps<T>(b: Cells<T>)
    requires b.Fresh()
    ensures SwitchActive(b).Fresh() && SwitchActive(b).Content() == b.Content()
  {
    assert b.extern + b.middle + b.intern == b.extern + (b.middle + b.intern) + [];
    assert b.read ==> b.extern + b.middle + b.intern == b.extern + b.intern + [];
  }

  /** The passive side's switch throws away the old extern buffer, and nothing else. */
  lemma SwitchPassiveDrops<T>(b: Cells<T>)
    ensures SwitchPassive(b).Fresh() && b.Content() == b.extern + SwitchPassive(b).Content()
    ensures SwitchPassive(b).Content() == b.Content() <==> b.extern == []
  {
    assert b.middle + [] + b.intern == b.middle + b.intern;
    assert b.extern + b.middle + b.intern == b.extern + (b.middle + b.intern);
  }

  /** The direct switch keeps everything in order exactly when the middle plays no part. */
  lemma SwitchActivePassiveKeeps<T>(b: Cells<T>)
    requires b.middle == []
    ensures SwitchActivePassive(b).Content() == b.Content()
  {
    assert b.extern + [] + b.intern == b.extern + b.intern + [] + [];
  }

  class EventBuffer<T> {
    var intern: seq<T>
    var middle: seq<T>
    var extern: seq<T>
    var read: bool

    function Value(): Cells<T>
      reads this
    {
      Cells(intern, middle, extern, read)
    }

    constructor ()
      ensures Value() == Cells([], [], [], false)
    {
      intern, middle, extern, read := [], [], [], false;
    }

    /** The handler of the in port. */
    method Receive(e: T)
      modifies this
      ensures Value() == old(Value()).(intern := old(intern) + [e])
      ensures Value().Content() == old(Value().Content()) + [e]
    {
      intern := intern + [e];
      assert Value().Content() == old(extern + middle + intern) + [e];
    }

    method SwitchActiveBuffers()
      modifies this
      ensures Value() == SwitchActive(old(Value()))
      ensures old(Value().Fresh()) ==> Value().Fresh() && Value().Content() == old(Value().Content())
    {
      ghost var b := Value();
      if b.Fresh() { SwitchActiveKeeps(b); }
      if read {
        intern, middle := middle, intern;
      } else {
        middle := middle + intern;
      }
      read := false;
      intern := [];
    }

    method SwitchPassiveBuffers()
      modifies this
      ensures Value() == SwitchPassive(old(Value()))
      ensures Value().Fresh() && old(Value().Content()) == old(extern) + Value().Content()
    {
      SwitchPassiveDrops(Value());
      middle, extern := extern, middle;
      read := true;
      middle := [];
    }

    method SwitchActivePassiveBuffers()
      modifies this
      ensures Value() == SwitchActivePassive(old(Value()))
      ensures old(middle) == [] ==> Value().Content() == old(Value().Content())
    {
      ghost var b := Value();
      if b.middle == [] { SwitchActivePassiveKeeps(b); }
      if extern == [] {
        intern, extern := extern, intern;
      } else {
        extern := extern + intern;
        intern := [];
      }
      assert extern == b.extern + b.intern;
    }

    /** fired is what went through the out port, in order. */
    method SendEvents() returns (fired: seq<T>)
      modifies this`extern
      ensures fired == old(extern) && extern == []
      ensures fired + Value().Content() == old(Value().Content())
    {
      fired := [];
      for i := 0 to |extern|
        invariant extern == old(extern) && fired == extern[..i]
      {
        fired := fired + [extern[i]];
      }
      extern := [];
      assert old(Value().Content()) == fired + (extern + middle + intern);
    }
  }

  // ---- event_buffer<void>: numbers in place of sequences -------------------------------------

  class VoidEventBuffer {
    var intern: nat
    var middle: nat
    var extern: nat
    var read: bool

    /** The counters say how long the buffers of an event_buffer would be. */
    predicate Counts<T>(b: Cells<T>)
      reads this
    {
      intern == |b.intern| && middle == |b.middle| && extern == |b.extern| && read == b.read
    }

    constructor ()
      ensures Counts(Cells<nat>.Cells([], [], [], false))
    {
      intern, middle, extern, read := 0, 0, 0, false;
    }

    method Receive<T>(ghost b: Cells<T>, ghost e: T)
      requires Counts(b)
      modifies this
      ensures Counts(b.(intern := b.intern + [e]))
    {
      intern := intern + 1;
    }

    method SwitchActiveBuffers<T>(ghost b: Cells<T>)
      requires Counts(b)
      modifies this
      ensures Counts(SwitchActive(b))
    {
      if read {
        middle := intern;
      } else {
        middle := middle + intern;
      }
      read := false;
      intern := 0;
    }

    method SwitchPassiveBuffers<T>(ghost b: Cells<T>)
      requires Counts(b)
      modifies this
      ensures Counts(SwitchPassive(b))
    {
      middle, extern := extern, middle;
      read := true;
      middle := 0;
    }

    method SwitchActivePassiveBuffers<T>(ghost b: Cells<T>)
      requires Counts(b)
      modifies this
      ensures Counts(SwitchActivePassive(b))
    {
      extern := extern + intern;
      intern := 0;
    }

    method SendEvents<T>(ghost b: Cells<T>) returns (fired: nat)
      requires Counts(b)
      modifies this`extern
      ensures Counts(b.(extern := [])) && fired == |b.extern|
    {
      fired := 0;
      for i := 0 to extern
        invariant extern == old(extern) && fired == i
      {
        fired := fired + 1;
      }
      extern := 0;
    }
  }

  // ---- state_buffer --------------------------------------------------------------------------

  /** For states the passive side is the source: its switch loads middle, the sink's reads it. */
  datatype Latch<T> = Latch(intern: T, middle: T, extern: T)

  function LatchPassive<T>(b: Latch<T>): Latch<T> { b.(middle := b.intern) }

  function LatchActive<T>(b: Latch<T>): Latch<T> { b.(extern := b.middle) }

  function LatchActivePassive<T>(b: Latch<T>): Latch<T> { b.(extern := b.intern) }

  /**
   * seen are the default value and the values sampled so far, oldest first; mid and ext say which
   * of them middle and extern hold.
   */
  class StateBuffer<T> {
    var intern: T
    var middle: T
    var extern: T
    ghost var seen: seq<T>
    ghost var mid: nat
    ghost var ext: nat

    function Value(): Latch<T>
      reads this
    {
      Latch(intern, middle, extern)
    }

    /** intern holds the newest value, middle and extern hold values sampled before or now. */
    ghost predicate Valid()
      reads this
    {
      && mid < |seen| && ext < |seen| && intern == seen[|seen| - 1]
      && middle == seen[mid] && extern == seen[ext]
    }

    constructor (default: T)
      ensures Valid() && Value() == Latch(default, default, default) && seen == [default] && ext == mid == 0
    {
      intern, middle, extern := default, default, default;
      seen, mid, ext := [default], 0, 0;
    }

    /** The work tick: x is what the in port pulls from the source; nothing older is disturbed. */
    method Sample(x: T)
      requires Valid()
      modifies this`intern, this`seen
      ensures Valid() && Value() == old(Value()).(intern := x) && seen == old(seen) + [x]
    {
      intern := x;
      seen := seen + [x];
    }

    /** The source's switch: middle moves on to the newest value. */
    method SwitchPassiveBuffers()
      requires Valid()
      modifies this`middle, this`mid
      ensures Valid() && Value() == LatchPassive(old(Value())) && old(mid) <= mid == |seen| - 1
    {
      middle := intern;
      mid := |seen| - 1;
    }

    /** The sink's switch: extern moves to what middle holds, and not back if it was not ahead. */
    method SwitchActiveBuffers()
      requires Valid()
      modifies this`extern, this`ext
      ensures Valid() && Value() == LatchActive(old(Value())) && ext == mid
      ensures old(ext) <= mid ==> old(ext) <= ext
    {
      extern := middle;
      ext := mid;
    }

    /** The direct switch: extern moves on to the newest value. */
    method SwitchActivePassiveBuffers()
      requires Valid()
      modifies this`extern, this`ext
      ensures Valid() && Value() == LatchActivePassive(old(Value())) && old(ext) <= ext == |seen| - 1
    {
      extern := intern;
      ext := |seen| - 1;
    }

    /** The out port. */
    method Pull() returns (x: T)
      requires Valid()
      ensures ext < |seen| && x == seen[ext]
    {
      x := extern;
    }
  }
}
