/** Sizes that several parts of the kernel share. */
module Constants {
  import opened Words

  /** The size of a page, 2 MiB. */
  const PG_SIZE: Word := 0x20_0000

  /** The number of task slots; pids are the numbers below it. */
  const TASKS: nat := 4096

  /** The pid that means "no such task". */
  const PID_NO_TASK: int := TASKS
}
