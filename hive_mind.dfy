/**
 * The socket-backed `HiveMind` session (class `HiveMind` in HiveMind.swift):
 * at most one move request is pending at a time, identified by a counter
 * that every `play` bumps.
 *
 * A promise is represented by the value of `movementPromiseID` when it was
 * created. The three things that happen to a session are methods: `Play`
 * (a caller asks for a move), `Timeout(id)` (the timer armed by the `play`
 * that created promise `id` fires) and `Receive(text)` (the socket delivers
 * a message). The ghost `log` records every promise resolution in order, and
 * `Valid()` says that each promise is resolved at most once and that every
 * promise but the pending one has been resolved.
 */
module HiveMindSession {
  import opened Wrappers
  import opened SocketProtocol

  /** How a promise ended: with a movement, or failed with an error. */
  type Outcome<M> = Result<M, HiveMindError>

  /** One resolution: promise `promise` was completed with `outcome`. */
  datatype Resolution<M> = Resolution(promise: int, outcome: Outcome<M>)

  /** The outcome a response delivers to a pending promise; `Success` delivers none. */
  function Delivered<M>(response: SocketResponse<M>): (r: Option<Outcome<M>>)
    ensures r.None? <==> response.Success?
    ensures r.Some? && r.value.Ok? <==> response.Movement?
    ensures response.Movement? ==> r == Some(Ok(response.movement))
    ensures response.Failure? || response.InvalidCommand? ==> r == Some(Err(NoMovement))
  {
    match response
    case Failure => Some(Err(NoMovement))
    case InvalidCommand => Some(Err(NoMovement))
    case Movement(movement) => Some(Ok(movement))
    case Success => None
  }

  /** Promise `id` appears in `log`. */
  ghost predicate Resolved<M>(log: seq<Resolution<M>>, id: int)
  {
    exists i :: 0 <= i < |log| && log[i].promise == id
  }

  /** No promise appears twice in `log`. */
  ghost predicate ResolvedAtMostOnce<M>(log: seq<Resolution<M>>)
  {
    forall i, j :: 0 <= i < j < |log| ==> log[i].promise != log[j].promise
  }

  lemma ResolvedAppend<M>(log: seq<Resolution<M>>, r: Resolution<M>, id: int)
    ensures Resolved(log + [r], id) <==> Resolved(log, id) || r.promise == id
  {
    if Resolved(log, id) {
      var i :| 0 <= i < |log| && log[i].promise == id;
      assert (log + [r])[i] == log[i];
    }
    if r.promise == id {
      assert (log + [r])[|log|] == r;
    }
  }

  class HiveMind<M> {
    /** If true, the engine plays first. */
    const isFirst: bool
    /** `Movement.json()`: the JSON text of a movement. */
    const json: M -> string
    /** `Movement.decode(_:)`: a movement from its JSON text, if it is one. */
    const decode: string -> Option<M>

    /** Identifier of the current promise. */
    var movementPromiseID: int
    /** The promise waiting for a movement, by its identifier. */
    var nextMovementPromise: Option<int>

    /** Every resolution of a promise, in order. */
    ghost var log: seq<Resolution<M>>
    /** Every text written to the socket, in order. */
    ghost var written: seq<string>

    ghost predicate Valid()
      reads this
    {
      && movementPromiseID >= 0
      && (nextMovementPromise.Some? ==> nextMovementPromise.value == movementPromiseID >= 1)
      && ResolvedAtMostOnce(log)
      && (forall i :: 0 <= i < |log| ==> 1 <= log[i].promise <= movementPromiseID)
      && (forall id :: 1 <= id <= movementPromiseID ==>
            (Resolved(log, id) <==> nextMovementPromise != Some(id)))
    }

    /** `init?(isFirst:)`, without the socket connection. */
    constructor (isFirst: bool, json: M -> string, decode: string -> Option<M>)
      ensures Valid()
      ensures this.isFirst == isFirst && this.json == json && this.decode == decode
      ensures movementPromiseID == 0 && nextMovementPromise == None
      ensures log == [] && written == []
    {
      this.isFirst := isFirst;
      this.json := json;
      this.decode := decode;
      movementPromiseID := 0;
      nextMovementPromise := None;
      log := [];
      written := [];
    }

    /** Appends a resolution of the pending promise and clears the slot. */
    method Resolve(outcome: Outcome<M>)
      requires Valid() && nextMovementPromise.Some?
      modifies this
      ensures Valid()
      ensures nextMovementPromise == None
      ensures log == old(log) + [Resolution(old(nextMovementPromise).value, outcome)]
      ensures movementPromiseID == old(movementPromiseID) && written == old(written)
    {
      var id := nextMovementPromise.value;
      forall id' | 1 <= id' <= movementPromiseID
        ensures Resolved(log + [Resolution(id, outcome)], id') <==> Resolved(log, id') || id' == id
      {
        ResolvedAppend(log, Resolution(id, outcome), id');
      }
      log := log + [Resolution(id, outcome)];
      nextMovementPromise := None;
    }

    /**
     * `play(on:)`: fails a pending promise with `NoMovement`, then creates
     * promise `movementPromiseID + 1`, installs it and writes `play`.
     */
    method Play() returns (promise: int)
      requires Valid()
      modifies this
      ensures Valid()
      ensures movementPromiseID == old(movementPromiseID) + 1
      ensures promise == movementPromiseID && nextMovementPromise == Some(promise)
      ensures !Resolved(log, promise)
      ensures log == old(log) + (if old(nextMovementPromise).Some?
                                 then [Resolution(old(nextMovementPromise).value, Err(NoMovement))]
                                 else [])
      ensures written == old(written) + [Description(SocketMessage.Play, json)]
    {
      if nextMovementPromise.Some? {
        Resolve(Err(NoMovement));
      }
      var nextID := movementPromiseID + 1;
      forall i | 0 <= i < |log| ensures log[i].promise != nextID { }
      movementPromiseID := nextID;
      nextMovementPromise := Some(nextID);
      written := written + [Description(SocketMessage.Play, json)];
      promise := nextID;
    }

    /**
     * The timer armed by `play` for promise `captured`: it fails the pending
     * promise with `TimeOut` only if `captured` is still the current
     * identifier; otherwise it does nothing.
     */
    method Timeout(captured: int)
      requires Valid()
      modifies this
      ensures Valid()
      ensures if old(nextMovementPromise).Some? && captured == old(movementPromiseID)
              then nextMovementPromise == None && log == old(log) + [Resolution(captured, Err(TimeOut))]
              else nextMovementPromise == old(nextMovementPromise) && log == old(log)
      ensures old(Resolved(log, captured)) ==> nextMovementPromise == old(nextMovementPromise) && log == old(log)
      ensures movementPromiseID == old(movementPromiseID) && written == old(written)
    {
      if nextMovementPromise.Some? && captured == movementPromiseID {
        Resolve(Err(TimeOut));
      }
    }

    /**
     * `handle(response:)`: resolves whatever promise is pending, with no
     * check of identifiers; `Success` changes nothing.
     */
    method Handle(response: SocketResponse<M>)
      requires Valid()
      modifies this
      ensures Valid()
      ensures if old(nextMovementPromise).Some? && Delivered(response).Some?
              then nextMovementPromise == None
                   && log == old(log) + [Resolution(old(nextMovementPromise).value, Delivered(response).value)]
              else nextMovementPromise == old(nextMovementPromise) && log == old(log)
      ensures movementPromiseID == old(movementPromiseID) && written == old(written)
    {
      match response
      case Failure =>
        if nextMovementPromise.Some? {
          Resolve(Err(NoMovement));
        }
      case InvalidCommand =>
        if nextMovementPromise.Some? {
          Resolve(Err(NoMovement));
        }
      case Movement(movement) =>
        if nextMovementPromise.Some? {
          Resolve(Ok(movement));
        }
      case Success =>
    }

    /** `websocketDidReceiveMessage`: decodes the text and handles the response. */
    method Receive(text: string)
      requires Valid()
      modifies this
      ensures Valid()
      ensures var delivered := Delivered(From(text, decode));
              if old(nextMovementPromise).Some? && delivered.Some?
              then nextMovementPromise == None
                   && log == old(log) + [Resolution(old(nextMovementPromise).value, delivered.value)]
              else nextMovementPromise == old(nextMovementPromise) && log == old(log)
      ensures movementPromiseID == old(movementPromiseID) && written == old(written)
    {
      Handle(From(text, decode));
    }

    /** `apply(move:)`: writes the move; the promise fields are untouched. */
    method Apply(move: M)
      requires Valid()
      modifies this
      ensures Valid()
      ensures written == old(written) + [Description(Move(move), json)]
      ensures movementPromiseID == old(movementPromiseID)
      ensures nextMovementPromise == old(nextMovementPromise) && log == old(log)
    {
      written := written + [Description(Move(move), json)];
    }
  }

  /** Two requests back to back: the first fails, the second gets the movement. */
  method SupersededRequest(m: string)
  {
    var mind := new HiveMind<string>(true, s => s, s => Some(s));
    var first := mind.Play();
    var second := mind.Play();
    assert mind.log == [Resolution(first, Err(NoMovement))];
    mind.Handle(Movement(m));
    assert mind.log == [Resolution(first, Err(NoMovement)), Resolution(second, Ok(m))];
    mind.Timeout(first);
    mind.Timeout(second);
    assert mind.log == [Resolution(first, Err(NoMovement)), Resolution(second, Ok(m))];
  }

  /** A request that times out leaves the session ready for the next one. */
  method TimedOutRequest(m: string)
    requires m != "SUCCESS" && m != "FAILED"
  {
    var mind := new HiveMind<string>(false, s => s, s => Some(s));
    var first := mind.Play();
    mind.Timeout(first);
    ghost var afterTimeout := mind.log;
    assert afterTimeout == [Resolution(first, Err(TimeOut))];
    var second := mind.Play();
    mind.Receive("SUCCESS");
    assert mind.log == afterTimeout && mind.nextMovementPromise == Some(second);
    assert From(m, mind.decode) == Movement(m);
    mind.Receive(m);
    assert mind.log == afterTimeout + [Resolution(second, Ok(m))];
  }
}
