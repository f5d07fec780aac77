/**
 * The payloads carried by the widget's window-wide event channel. Each
 * channel name of the widget becomes one constructor of `WindowEvent`.
 */
module Bus {
  import opened Wrappers

  /** Which way credits travel: pool to diamond (a vote gained) or back. */
  datatype Direction = ToDiamond | ToPool

  datatype Phase = Start | End

  /** Detail of `qv:launch-animation`, sent by the ledger after a committed vote. */
  datatype LaunchPayload = LaunchPayload(
    direction: Direction,
    poolStartIndex: int,
    diamondId: int,
    diamondLevel: int,
    count: int,
    color: Option<string>)

  /** Detail of `qv:anim`: one credit unit starts its flight. */
  datatype AnimDetail = AnimDetail(
    phase: Phase,
    direction: Direction,
    diamondId: int,
    diamondLevel: int,
    ai: int,
    poolIndex: Option<int>)

  /** Detail of `qv:anim-pool`: the pool side of one unit settles. */
  datatype PoolEndDetail = PoolEndDetail(phase: Phase, direction: Direction, poolIndex: Option<int>)

  /** Detail of `qv:anim-diamond`: the diamond side of one unit settles. */
  datatype DiamondEndDetail = DiamondEndDetail(
    phase: Phase,
    direction: Direction,
    diamondId: int,
    diamondLevel: int,
    ai: int)

  datatype WindowEvent =
    | LaunchAnimation(launch: LaunchPayload)
    | Anim(anim: AnimDetail)
    | AnimPool(pool: PoolEndDetail)
    | AnimDiamond(diamond: DiamondEndDetail)

  /** An event together with the time, in milliseconds, at which it is dispatched. */
  datatype TimedEvent = TimedEvent(at: int, event: WindowEvent)
}
