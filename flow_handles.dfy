/**
 * The handle positions of the nodes of a flow chart laid out in a
 * direction: where edges leave a node and where they enter the next.
 */
module FlowHandles {
  datatype Position = Top | Right | Bottom | Left

  function Opposite(p: Position): Position {
    match p
    case Top => Bottom
    case Bottom => Top
    case Left => Right
    case Right => Left
  }

  /** `getSourceHandlePosition`. */
  function SourceHandlePosition(direction: string): Position {
    if direction == "TB" then Bottom
    else if direction == "BT" then Top
    else if direction == "LR" then Right
    else if direction == "RL" then Left
    else Bottom
  }

  /** `getTargetHandlePosition`. */
  function TargetHandlePosition(direction: string): Position {
    if direction == "TB" then Top
    else if direction == "BT" then Bottom
    else if direction == "LR" then Left
    else if direction == "RL" then Right
    else Top
  }

  /** The four layout directions and the default, source and target side. */
  lemma {:induction false} HandlesByDirection(direction: string)
    ensures direction == "TB" ==> SourceHandlePosition(direction) == Bottom && TargetHandlePosition(direction) == Top
    ensures direction == "BT" ==> SourceHandlePosition(direction) == Top && TargetHandlePosition(direction) == Bottom
    ensures direction == "LR" ==> SourceHandlePosition(direction) == Right && TargetHandlePosition(direction) == Left
    ensures direction == "RL" ==> SourceHandlePosition(direction) == Left && TargetHandlePosition(direction) == Right
    ensures direction !in {"TB", "BT", "LR", "RL"} ==>
      SourceHandlePosition(direction) == Bottom && TargetHandlePosition(direction) == Top
  {
  }

  /** Whatever the direction, an edge enters on the side opposite to the one it leaves. */
  lemma {:induction false} SidesOpposite(direction: string)
    ensures TargetHandlePosition(direction) == Opposite(SourceHandlePosition(direction))
    ensures SourceHandlePosition(direction) != TargetHandlePosition(direction)
  {
  }

  /** Reversing the direction swaps the two sides. */
  lemma {:induction false} ReversedSwaps()
    ensures SourceHandlePosition("BT") == TargetHandlePosition("TB") && TargetHandlePosition("BT") == SourceHandlePosition("TB")
    ensures SourceHandlePosition("RL") == TargetHandlePosition("LR") && TargetHandlePosition("RL") == SourceHandlePosition("LR")
  {
  }
}
