/** The task states that the executor reports. */
module Status {
  datatype Terminal = Killed | Failed | Finished

  datatype TaskState = Running | Ended(t: Terminal)
}
