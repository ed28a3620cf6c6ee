/** Optional values, results and the exceptions the services throw. */
module Wrappers {

  /** A Java reference that may be null. */
  datatype Option<+T> = None | Some(value: T)

  /** The exceptions that escape the modelled services, with their messages. */
  datatype Error =
    | IllegalArgument(message: string)    // IllegalArgumentException
    | UsernameNotFound(message: string)   // UsernameNotFoundException
    | Disabled(message: string)           // DisabledException
    | BadCredentials                      // thrown by the authentication manager
    | MailFailure                         // MessagingException or MailSendException

  /** The outcome of a service call: its return value, or the exception it throws. */
  datatype Result<+T> = Success(value: T) | Failure(error: Error)

  /** Where a Mongo `save` puts a record: under its own id, or under a freshly generated one. */
  function SaveKey(id: Option<string>, freshId: string): (k: string)
    ensures id.Some? ==> k == id.value
    ensures id.None? ==> k == freshId
  {
    if id.Some? then id.value else freshId
  }
}
