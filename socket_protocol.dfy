/**
 * The text protocol spoken over the HiveMind socket (`SocketMessage` and
 * `SocketResponse` in HiveMind.swift), and the errors a move request fails
 * with (`HiveMindError` in HiveMindError.swift).
 *
 * `Movement` belongs to the game engine library and is a type parameter `M`
 * here; its JSON rendering `json` and its decoder `decode` are parameters.
 */
module SocketProtocol {
  import opened Wrappers

  /** Why a move request failed. */
  datatype HiveMindError = NotInitialized | NoMovement | TimeOut

  /**
   * A command for the engine. The exploration time is a `Double` in the
   * source; its rendering is kept as the text Swift would print.
   */
  datatype SocketMessage<M> = New(isFirst: bool, explorationTime: string) | Play | Move(movement: M)

  /** What the engine can answer. */
  datatype SocketResponse<M> = Success | Movement(movement: M) | Failure | InvalidCommand

  /** `SocketMessage.description`: the text written to the socket, one message, no newline. */
  function Description<M>(message: SocketMessage<M>, json: M -> string): string
  {
    match message
    case New(isFirst, explorationTime) => "new " + BoolText(isFirst) + " " + explorationTime
    case Play => "play"
    case Move(movement) => "move " + json(movement)
  }

  /** `SocketResponse.from(string:)`: total, and the two literals win over movement decoding. */
  function From<M>(text: string, decode: string -> Option<M>): (r: SocketResponse<M>)
    ensures r.Success? <==> text == "SUCCESS"
    ensures r.Failure? <==> text == "FAILED"
    ensures r.Movement? <==> text != "SUCCESS" && text != "FAILED" && decode(text).Some?
    ensures r.Movement? ==> decode(text) == Some(r.movement)
    ensures r.InvalidCommand? <==> text != "SUCCESS" && text != "FAILED" && decode(text).None?
  {
    if text == "SUCCESS" then Success
    else if text == "FAILED" then Failure
    else match decode(text)
      case Some(movement) => Movement(movement)
      case None => InvalidCommand
  }

  /**
   * Distinct messages are written as distinct texts, provided the JSON
   * rendering of the moves involved tells them apart.
   */
  lemma {:induction false} DescriptionInjective<M>(a: SocketMessage<M>, b: SocketMessage<M>, json: M -> string)
    requires a.Move? && b.Move? && json(a.movement) == json(b.movement) ==> a.movement == b.movement
    ensures Description(a, json) == Description(b, json) ==> a == b
  {
    var da, db := Description(a, json), Description(b, json);
    if da == db {
      assert da[0] == db[0];
      match a
      case New(f, t) =>
        assert b.New?;
        assert da[4] == db[4];
        assert f == b.isFirst;
        var n := |"new " + BoolText(f) + " "|;
        assert da[n..] == t && db[n..] == b.explorationTime;
      case Play =>
        assert b.Play?;
      case Move(m) =>
        assert b.Move?;
        assert da[5..] == json(m) && db[5..] == json(b.movement);
    }
  }

  /**
   * A movement the engine sends as JSON comes back out of the decoder, as
   * long as the decoder inverts the rendering and the JSON is an object (so
   * it is not one of the two literals).
   */
  lemma MovementRoundTrip<M>(m: M, json: M -> string, decode: string -> Option<M>)
    requires decode(json(m)) == Some(m)
    requires |json(m)| > 0 && json(m)[0] == '{'
    ensures From(json(m), decode) == Movement(m)
  {
  }

  /** The literals are recognised even when the movement decoder would also accept them. */
  lemma LiteralsTakePrecedence<M>(decode: string -> Option<M>)
    ensures From("SUCCESS", decode) == Success
    ensures From("FAILED", decode) == Failure
  {
  }
}
