/** Names shared by the two thread-pool protocols. */
module Threads {

  datatype Thread = TheCaller | TheWorker(w: nat)

  /** One service of one ticket (chunk or queue position) of one run. */
  datatype Service = Service(run: nat, chunk: nat)
}
