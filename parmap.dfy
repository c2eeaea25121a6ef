/**
 * `parmap.Do`: run a fallible operation over every input concurrently, keep
 * each result at its input's position, and gather the failures into an
 * `ErrMap`.
 *
 * The goroutines and channels are abstracted away. What remains is the
 * sequential protocol they implement: the dispatcher tags every input with
 * its position, a worker routes each outcome to exactly one of two
 * collectors, each collector applies one update per outcome and sends one
 * done signal, and the dispatcher waits for one signal per input. The order
 * in which the outcomes reach the collectors is the scheduler's choice and is
 * a parameter here (`completion`); the lemmas show it does not matter.
 */
module ParMap {
  import opened Wrappers
  import opened ErrMaps

  /** Go's `data[T]`: a value tagged with the position of its input. */
  datatype Tagged<T> = Tagged(index: int, value: T)

  /** What a worker sends: a result to the result collector, or an error to the error collector. */
  datatype Outcome<OUT> = ToResults(index: int, value: OUT) | ToErrors(index: int, err: Message)

  /**
   * A worker handling one tagged input: it runs the operation and routes the
   * outcome to exactly one collector; an error never also produces a result.
   */
  function Route<IN, OUT>(op: IN -> Result<OUT, Message>, t: Tagged<IN>): (o: Outcome<OUT>)
    ensures o.index == t.index
    ensures o.ToErrors? <==> op(t.value).Err?
    ensures o.ToErrors? ==> o.err == op(t.value).error
    ensures o.ToResults? ==> o.value == op(t.value).value
  {
    match op(t.value)
    case Err(e) => ToErrors(t.index, e)
    case Ok(v) => ToResults(t.index, v)
  }

  /** What the two collectors own between them: the results slice, the error map, the done signals sent. */
  datatype Collected<OUT> = Collected(results: seq<OUT>, erm: ErrMap, done: nat)

  /** The state before any outcome arrives: every result slot holds the zero value. */
  function Initial<OUT>(n: nat, default: OUT): (s: Collected<OUT>)
    ensures |s.results| == n && forall i :: 0 <= i < n ==> s.results[i] == default
    ensures |s.erm| == 0 && s.done == 0
  {
    Collected(seq(n, _ => default), map[], 0)
  }

  /** One outcome handled by its collector: one write, then one done signal. */
  function Deliver<OUT>(s: Collected<OUT>, o: Outcome<OUT>): (s': Collected<OUT>)
    requires o.ToResults? ==> 0 <= o.index < |s.results|
    ensures |s'.results| == |s.results|
    ensures s'.done == s.done + 1
    ensures o.ToResults? ==> s'.results[o.index] == o.value && s'.erm == s.erm
    ensures o.ToResults? ==> forall j :: 0 <= j < |s.results| && j != o.index ==> s'.results[j] == s.results[j]
    ensures o.ToErrors? ==> s'.results == s.results && s'.erm.Keys == s.erm.Keys + {o.index}
    ensures o.ToErrors? ==> s'.erm[o.index] == o.err
    ensures o.ToErrors? ==> forall k :: k in s.erm && k != o.index ==> s'.erm[k] == s.erm[k]
  {
    match o
    case ToResults(i, v) => s.(results := s.results[i := v], done := s.done + 1)
    case ToErrors(i, e) => s.(erm := s.erm[i := e], done := s.done + 1)
  }

  /** Two outcomes for different positions can be handled in either order. */
  lemma DeliverCommutes<OUT>(s: Collected<OUT>, a: Outcome<OUT>, b: Outcome<OUT>)
    requires a.index != b.index
    requires a.ToResults? ==> 0 <= a.index < |s.results|
    requires b.ToResults? ==> 0 <= b.index < |s.results|
    ensures Deliver(Deliver(s, a), b) == Deliver(Deliver(s, b), a)
  {
  }

  predicate AllDeliverable<OUT>(n: nat, os: seq<Outcome<OUT>>) {
    forall j :: 0 <= j < |os| ==> os[j].ToResults? ==> 0 <= os[j].index < n
  }

  /** The outcomes handled one after the other, in the order given. */
  function DeliverAll<OUT>(s: Collected<OUT>, os: seq<Outcome<OUT>>): (s': Collected<OUT>)
    requires AllDeliverable(|s.results|, os)
    ensures |s'.results| == |s.results|
    ensures s'.done == s.done + |os|
    decreases |os|
  {
    if os == [] then s
    else Deliver(DeliverAll(s, os[..|os| - 1]), os[|os| - 1])
  }

  /** Every entry of `order` is a position of `[0, n)`. */
  predicate Positions(order: seq<int>, n: nat) {
    forall j :: 0 <= j < |order| ==> 0 <= order[j] < n
  }

  /** The outcomes of the items, in the order `order` lists their positions. */
  function Outcomes<IN, OUT>(inputs: seq<IN>, op: IN -> Result<OUT, Message>, order: seq<int>): (os: seq<Outcome<OUT>>)
    requires Positions(order, |inputs|)
    ensures |os| == |order|
    ensures forall j :: 0 <= j < |order| ==> os[j].index == order[j]
    ensures AllDeliverable(|inputs|, os)
  {
    seq(|order|, j requires 0 <= j < |order| => Route(op, Tagged(order[j], inputs[order[j]])))
  }

  /** A completion order: every position of `[0, n)` exactly once. */
  predicate IsSchedule(order: seq<int>, n: nat) {
    multiset(order) == multiset(seq(n, i => i))
  }

  lemma ScheduleIndices(order: seq<int>, n: nat)
    requires IsSchedule(order, n)
    ensures |order| == n
    ensures forall x :: x in order <==> 0 <= x < n
    ensures Positions(order, n)
  {
    var all := seq(n, i => i);
    assert |order| == |multiset(order)| == |multiset(all)| == n;
    forall x ensures x in order <==> 0 <= x < n {
      assert x in order <==> x in multiset(order);
      assert x in all <==> x in multiset(all);
      if 0 <= x < n {
        assert all[x] == x;
      }
    }
    assert forall j :: 0 <= j < |order| ==> order[j] in order;
  }

  /** The promised results: each item's value where the operation succeeded, the zero value where it failed. */
  function ExpectedResults<IN, OUT>(inputs: seq<IN>, op: IN -> Result<OUT, Message>, default: OUT): seq<OUT> {
    seq(|inputs|, i requires 0 <= i < |inputs| =>
      match op(inputs[i])
      case Ok(v) => v
      case Err(_) => default)
  }

  /** The promised error map: exactly the failed positions, each with its error. */
  function ExpectedErrors<IN, OUT>(inputs: seq<IN>, op: IN -> Result<OUT, Message>): ErrMap {
    map i | 0 <= i < |inputs| && op(inputs[i]).Err? :: op(inputs[i]).error
  }

  /** What the promised state says, item by item. */
  lemma ExpectedMeaning<IN, OUT>(inputs: seq<IN>, op: IN -> Result<OUT, Message>, default: OUT)
    ensures |ExpectedResults(inputs, op, default)| == |inputs|
    ensures forall i :: 0 <= i < |inputs| ==>
      ExpectedResults(inputs, op, default)[i] == (if op(inputs[i]).Ok? then op(inputs[i]).value else default)
    ensures forall i :: i in ExpectedErrors(inputs, op) <==> 0 <= i < |inputs| && op(inputs[i]).Err?
    ensures forall i :: i in ExpectedErrors(inputs, op) ==> ExpectedErrors(inputs, op)[i] == op(inputs[i]).error
    ensures |ExpectedErrors(inputs, op)| == 0 <==> forall i :: 0 <= i < |inputs| ==> op(inputs[i]).Ok?
  {
  }

  /** When every item fails, the error map has one entry per input. */
  lemma {:induction false} AllFail<IN, OUT>(inputs: seq<IN>, op: IN -> Result<OUT, Message>)
    requires forall i :: 0 <= i < |inputs| ==> op(inputs[i]).Err?
    ensures forall i :: i in ExpectedErrors(inputs, op) <==> 0 <= i < |inputs|
    ensures |ExpectedErrors(inputs, op)| == |inputs|
    decreases |inputs|
  {
    if inputs != [] {
      var n := |inputs| - 1;
      AllFail(inputs[..n], op);
      var m := ExpectedErrors(inputs, op);
      var m' := ExpectedErrors(inputs[..n], op);
      assert m.Keys == m'.Keys + {n};
      assert n !in m'.Keys;
    }
  }

  /** The collectors' state after the items listed in `seen` have been handled (in any order). */
  function Partial<IN, OUT>(inputs: seq<IN>, op: IN -> Result<OUT, Message>, default: OUT, seen: seq<int>): Collected<OUT> {
    Collected(
      seq(|inputs|, i requires 0 <= i < |inputs| =>
        if i in seen && op(inputs[i]).Ok? then op(inputs[i]).value else default),
      map i | i in seen && 0 <= i < |inputs| && op(inputs[i]).Err? :: op(inputs[i]).error,
      |seen|)
  }

  /** Before any outcome arrives, no item has been handled. */
  lemma NothingHandled<IN, OUT>(inputs: seq<IN>, op: IN -> Result<OUT, Message>, default: OUT)
    ensures Initial(|inputs|, default) == Partial(inputs, op, default, [])
  {
    assert Initial(|inputs|, default).results == Partial(inputs, op, default, []).results;
  }

  lemma PartialStep<IN, OUT>(inputs: seq<IN>, op: IN -> Result<OUT, Message>, default: OUT, seen: seq<int>, x: int)
    requires 0 <= x < |inputs|
    ensures Partial(inputs, op, default, seen + [x])
         == Deliver(Partial(inputs, op, default, seen), Route(op, Tagged(x, inputs[x])))
  {
  }

  /** Handling the outcomes in `order` leaves exactly the items of `order` handled. */
  lemma {:induction false} PrefixState<IN, OUT>(inputs: seq<IN>, op: IN -> Result<OUT, Message>, default: OUT, order: seq<int>)
    requires Positions(order, |inputs|)
    ensures DeliverAll(Initial(|inputs|, default), Outcomes(inputs, op, order))
         == Partial(inputs, op, default, order)
    decreases |order|
  {
    var init := Initial(|inputs|, default);
    if order == [] {
      NothingHandled(inputs, op, default);
    } else {
      var k := |order| - 1;
      var os := Outcomes(inputs, op, order);
      assert os[..k] == Outcomes(inputs, op, order[..k]);
      PrefixState(inputs, op, default, order[..k]);
      PartialStep(inputs, op, default, order[..k], order[k]);
      assert order[..k] + [order[k]] == order;
    }
  }

  /** One more completion: the outcome of the next item in `order` is handled. */
  lemma DeliverNext<IN, OUT>(inputs: seq<IN>, op: IN -> Result<OUT, Message>, default: OUT, order: seq<int>, k: nat)
    requires Positions(order, |inputs|) && k < |order|
    ensures Positions(order[..k], |inputs|) && Positions(order[..k + 1], |inputs|)
    ensures DeliverAll(Initial(|inputs|, default), Outcomes(inputs, op, order[..k + 1]))
         == Deliver(DeliverAll(Initial(|inputs|, default), Outcomes(inputs, op, order[..k])),
                    Route(op, Tagged(order[k], inputs[order[k]])))
  {
    assert order[..k + 1][..k] == order[..k];
    assert Outcomes(inputs, op, order[..k + 1])[..k] == Outcomes(inputs, op, order[..k]);
  }

  /**
   * Any completion order gives the promised state: results at their own
   * positions, zero values and error-map entries exactly at the failures,
   * and one done signal per input.
   */
  lemma ScheduleOutcome<IN, OUT>(inputs: seq<IN>, op: IN -> Result<OUT, Message>, default: OUT, order: seq<int>)
    requires IsSchedule(order, |inputs|)
    ensures Positions(order, |inputs|)
    ensures DeliverAll(Initial(|inputs|, default), Outcomes(inputs, op, order))
         == Collected(ExpectedResults(inputs, op, default), ExpectedErrors(inputs, op), |inputs|)
  {
    ScheduleIndices(order, |inputs|);
    assert forall j :: 0 <= j < |order| ==> order[j] in order;
    PrefixState(inputs, op, default, order);
    var p := Partial(inputs, op, default, order);
    assert p.results == ExpectedResults(inputs, op, default);
    assert p.erm == ExpectedErrors(inputs, op);
  }

  /** Order independence: two completion orders leave the collectors in the same state. */
  lemma OrderIndependence<IN, OUT>(inputs: seq<IN>, op: IN -> Result<OUT, Message>, default: OUT, order1: seq<int>, order2: seq<int>)
    requires IsSchedule(order1, |inputs|) && IsSchedule(order2, |inputs|)
    ensures Positions(order1, |inputs|) && Positions(order2, |inputs|)
    ensures DeliverAll(Initial(|inputs|, default), Outcomes(inputs, op, order1))
         == DeliverAll(Initial(|inputs|, default), Outcomes(inputs, op, order2))
  {
    ScheduleOutcome(inputs, op, default, order1);
    ScheduleOutcome(inputs, op, default, order2);
  }

  /**
   * The results slice, the error map and the done-signal count that the
   * result collector and the error collector own; each is the only writer of
   * its part.
   */
  class Collector<OUT> {
    var results: array<OUT>
    var erm: ErrMap
    var done: nat

    ghost function State(): Collected<OUT>
      reads this, results
    {
      Collected(results[..], erm, done)
    }

    /** `make([]OUT, length)` and `make(ErrMap)`. */
    constructor (length: nat, default: OUT)
      ensures fresh(results) && results.Length == length
      ensures State() == Initial(length, default)
    {
      results := new OUT[length](_ => default);
      erm := map[];
      done := 0;
    }

    /** The result collector's loop body: write the value at its position, signal done. */
    method CollectResult(index: int, value: OUT)
      requires 0 <= index < results.Length
      modifies results, this`done
      ensures State() == Deliver(old(State()), ToResults(index, value))
    {
      results[index] := value;
      done := done + 1;
    }

    /** The error collector's loop body: record the error under its position, signal done. */
    method CollectError(index: int, err: Message)
      modifies this`erm, this`done
      ensures State() == Deliver(old(State()), ToErrors(index, err))
    {
      erm := erm[index := err];
      done := done + 1;
    }

    /** An outcome reaches the collector it was routed to. */
    method Receive(o: Outcome<OUT>)
      requires o.ToResults? ==> 0 <= o.index < results.Length
      modifies results, this`erm, this`done
      ensures State() == Deliver(old(State()), o)
    {
      match o
      case ToResults(i, v) => CollectResult(i, v);
      case ToErrors(i, e) => CollectError(i, e);
    }
  }

  /**
   * The dispatcher's completion barrier: it waits for one done signal per
   * input while the workers' outcomes reach the collectors in `completion`
   * order. When it returns, every input has been handled exactly once.
   */
  method AwaitCompletions<IN, OUT>(c: Collector<OUT>, inputs: seq<IN>, op: IN -> Result<OUT, Message>,
                                   default: OUT, sent: seq<Tagged<IN>>, completion: seq<int>)
    requires c.results.Length == |inputs| && c.State() == Initial(|inputs|, default)
    requires |sent| == |inputs| && forall i :: 0 <= i < |inputs| ==> sent[i] == Tagged(i, inputs[i])
    requires IsSchedule(completion, |inputs|)
    modifies c, c.results
    ensures c.results == old(c.results)
    ensures c.State() == Collected(ExpectedResults(inputs, op, default), ExpectedErrors(inputs, op), |inputs|)
  {
    var n := |inputs|;
    ScheduleIndices(completion, n);
    while c.done < n
      invariant c.done <= n
      invariant c.results == old(c.results)
      invariant Positions(completion[..c.done], n)
      invariant c.State() == DeliverAll(Initial(n, default), Outcomes(inputs, op, completion[..c.done]))
      decreases n - c.done
    {
      var k := c.done;
      c.Receive(Route(op, sent[completion[k]]));
      DeliverNext(inputs, op, default, completion, k);
    }
    assert completion[..n] == completion;
    ScheduleOutcome(inputs, op, default, completion);
  }

  /**
   * `Do`, with the scheduler's choice of completion order as a parameter.
   * Whatever that order, the results keep the input order, failures leave
   * the zero value behind, and the error map holds exactly the failures;
   * no failure means no error map (Go's nil).
   */
  method Do<IN, OUT>(inputs: seq<IN>, op: IN -> Result<OUT, Message>, default: OUT, completion: seq<int>)
    returns (results: seq<OUT>, err: Option<ErrMap>)
    requires IsSchedule(completion, |inputs|)
    ensures |results| == |inputs|
    ensures forall i :: 0 <= i < |inputs| ==>
      results[i] == (if op(inputs[i]).Ok? then op(inputs[i]).value else default)
    ensures err.None? <==> forall i :: 0 <= i < |inputs| ==> op(inputs[i]).Ok?
    ensures err.Some? ==> forall i :: i in err.value <==> 0 <= i < |inputs| && op(inputs[i]).Err?
    ensures err.Some? ==> forall i :: i in err.value ==> err.value[i] == op(inputs[i]).error
    ensures results == ExpectedResults(inputs, op, default)
    ensures err == if |ExpectedErrors(inputs, op)| == 0 then None else Some(ExpectedErrors(inputs, op))
  {
    var n := |inputs|;

    // The dispatcher tags each input with its position.
    var sent: seq<Tagged<IN>> := [];
    for i := 0 to n
      invariant |sent| == i
      invariant forall k :: 0 <= k < i ==> sent[k] == Tagged(k, inputs[k])
    {
      sent := sent + [Tagged(i, inputs[i])];
    }

    var c := new Collector(n, default);
    AwaitCompletions(c, inputs, op, default, sent, completion);
    results := c.results[..];
    if |c.erm| != 0 {
      err := Some(c.erm);
    } else {
      err := None;
    }
    ExpectedMeaning(inputs, op, default);
  }
}
