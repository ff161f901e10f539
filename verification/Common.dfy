/** Shared vocabulary of the model. */
module Options {

  datatype Option<+T> = None | Some(value: T)

}

/** gRPC status codes the driver answers with. */
module Replies {
  datatype Reply = OK | InvalidArgument | NotFoundReply | FailedPrecondition | Aborted | DeadlineExceeded | Internal
}
