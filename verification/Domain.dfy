/** Value types shared by the engine, the stores and the protocols. */
module Domain {

  datatype Option<+T> = None | Some(value: T)

  datatype RunState = Pending | Running | Paused | Compensating | Succeeded | Failed | Cancelled
  {
    predicate IsTerminal()
    {
      Succeeded? || Failed? || Cancelled?
    }
  }

  type RunId = nat
  type Time = int
}
