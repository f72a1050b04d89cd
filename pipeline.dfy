/** Types shared by the pipeline driver and the execution context. */
module Pipeline {

  /** The control signals: the closed set of PipelineControl throwables that move
      control between stages without being errors. */
  datatype Signal = Continue | Paused | Completed | Finished | FinishedAll

  /** Anything a stage body, `proceed` or `fail` can throw: a control signal, or an
      ordinary exception, known here only by its identity. */
  datatype Throwable = Control(signal: Signal) | Fault(id: nat)

  /** PipelineState: `Executing` (still running, or paused) or `Finished`. */
  datatype PipelineState = Executing | Finished

  /** Kotlin's nullable reference. */
  datatype Option<+T> = None | Some(value: T)
}
