/**
 * The exceptions the services raise. The named ones are the subclasses of
 * `DiscordError` (errors that carry a reply for the user); every other
 * exception — a `TypeError`, a failed navigation, `new Error("...")` — is
 * `Other`, identified by its message.
 */
module Errors {
  datatype Failure =
    | MissingCredentials
    | InvalidEmail
    | InvalidPassword
    | NoGroupFound
    | NoGroupToImport
    | NoNextCourse
    | NoCurrentCourse
    | NoCourseToday
    | Other(message: string)

  /** `error instanceof DiscordError`. */
  predicate IsDiscordError(f: Failure) {
    !f.Other?
  }
}
