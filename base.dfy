/** Outcome types shared by every part of the maintenance-window model. */
module Base {

  datatype Option<T> = None | Some(value: T)

  /** Why a run stops. In the tool each of these ends the program, with exit(1) or an uncaught exception. */
  datatype Failure =
    | MalformedStart            // start_format: no accepted form, or strptime rejects the fields
    | MalformedDuration         // duration_format: no accepted form
    | UnreadableWindowDuration  // an existing window's duration matches neither server form
    | UnreadableWindowStart     // a stale window's startTime does not match YYYY/MM/DD HH:MM:SS
    | DisableFailed             // the edit that disables a stale window was refused
    | NoApplications            // the application file has no Applications key
    | UnknownContext            // the context is not a key of Applications
    | LookupFailed              // getDevices reported failure
    | AmbiguousHostname         // getDevices found more than one device
    | UnknownHostname           // getDevices succeeded with no device
    | ExistenceCheckFailed      // objectExists reported failure
    | OrganizerMissing          // objectExists answered that the organizer does not exist
    | ListingFailed             // getMaintWindows reported failure
    | StartBefore1900           // strftime refuses a year before 1900
    | CreateFailed              // addMaintWindow reported failure

  datatype Result<T> = Ok(value: T) | Fail(failure: Failure)
}
