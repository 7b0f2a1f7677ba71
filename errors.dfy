/** The kinds of ArgumentError the entity layer raises; message texts are not modelled. */
module Errors {

  /** The four arguments of `Section#set_counts`, each named by its own error message. */
  datatype CountField = SeatsLimit | SeatsTaken | WaitlistLimit | WaitlistTaken

  datatype Error =
    | MissingField              // a required constructor argument is nil
    | InvalidMeeting            // an element of a section's meetings is not a Meeting
    | InvalidSchedule           // a meeting's days hold a letter outside m, t, w, r, f
    | InvalidCode               // a codec was asked to decode a letter it does not know
    | NotIterable               // a value that is neither nil, a String nor mappable
    | InvalidCount(field: CountField)  // set_counts got a non-integer for this argument
    | UndefinedMethod           // NoMethodError; only the as-written variants raise it
}
