/** The messages of a process connection, with transport.ProcessPayload's optional fields as options. */
module Transport {
  import opened Options

  datatype Source = Stdin | Stdout | Stderr

  datatype TTYSpec = TTYSpec(columns: int, rows: int)

  /** garden.Signal: terminate is 0, kill is 1. */
  const SIGNAL_TERMINATE := 0
  const SIGNAL_KILL := 1

  datatype ProcessPayload = ProcessPayload(
    processID: string,
    streamID: string,
    source: Option<Source>,
    data: Option<string>,
    exitStatus: Option<int>,
    error: Option<string>,
    tty: Option<TTYSpec>,
    signal: Option<int>)

  /** A message about a process that says nothing yet. */
  function EmptyPayload(processID: string): ProcessPayload {
    ProcessPayload(processID, "", None, None, None, None, None, None)
  }
}
