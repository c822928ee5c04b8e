/** Hedge directions and the order sides of the two legs. */
module HedgeLegs {
  datatype Direction = Forward | Reverse
  datatype TaskType = OpenTask | CloseTask
  datatype PositionMode = OneWay | HedgeMode

  datatype LegActions = LegActions(spotSide: string, perpSide: string, perpPositionSide: string)

  function DirectionToLegActions(direction: Direction, mode: PositionMode, kind: TaskType): LegActions {
    var perpPos :=
      if mode == OneWay then "BOTH" else if direction == Forward then "SHORT" else "LONG";
    var spotSide, perpSide := if direction == Forward then "BUY" else "SELL",
                              if direction == Forward then "SELL" else "BUY";
    if kind == CloseTask then LegActions(perpSide, spotSide, perpPos)
    else LegActions(spotSide, perpSide, perpPos)
  }

  /** The direction the smooth gate evaluates: a close task is evaluated the other way round. */
  function EvaluationDirection(direction: Direction, kind: TaskType): Direction {
    if kind == CloseTask then (if direction == Forward then Reverse else Forward) else direction
  }

  /** The two legs trade opposite sides; opening forward buys spot; closing trades each leg the other
      way round on the position side it was opened on; a one-way account names no side, a hedge
      account sells short and buys long to open. */
  lemma ClosingUndoesOpening(direction: Direction, mode: PositionMode)
    ensures
      var entry := DirectionToLegActions(direction, mode, OpenTask);
      var exit := DirectionToLegActions(direction, mode, CloseTask);
      && (entry.spotSide, entry.perpSide) == (exit.perpSide, exit.spotSide)
      && (entry.spotSide, entry.perpSide) == (if direction.Forward? then ("BUY", "SELL") else ("SELL", "BUY"))
      && entry.perpPositionSide == exit.perpPositionSide
      && (mode.OneWay? <==> entry.perpPositionSide == "BOTH")
      && (mode.HedgeMode? ==> (entry.perpSide, entry.perpPositionSide) in {("SELL", "SHORT"), ("BUY", "LONG")})
  {
  }
}
