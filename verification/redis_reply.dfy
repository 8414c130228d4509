/** How a Redis command ends as seen by its client. */
module RedisReply {

  /** Answered, or failed on the client's side with the command carried out or lost. */
  datatype Reply = Answered | FailedApplied | FailedLost
}
