/** The mode check of the command line: a destination queue or `--delete`,
    but not both. */
module Config {
  import opened Transport

  /** The destination as the program keeps it: "" when none was given. */
  function DestinationOrEmpty(destinationArg: Option<string>): string {
    destinationArg.GetOr("")
  }

  /** The check in `parse`: `Some(destination)` when the configuration is
      accepted, `None` when the program would exit asking for
      `--destination` or `--delete`. */
  function CheckMode(destinationArg: Option<string>, hasDelete: bool): (r: Option<string>)
    // Accepted exactly when one of the two is set.
    ensures r.Some? <==> ((DestinationOrEmpty(destinationArg) != "") != hasDelete)
    ensures r.Some? ==> r.value == DestinationOrEmpty(destinationArg)
    // An accepted configuration runs the delete-only branch of a step exactly when `--delete` was given.
    ensures r.Some? ==> (r.value == "" <==> hasDelete)
  {
    var destination := DestinationOrEmpty(destinationArg);
    if (destination != "" && hasDelete) || (destination == "" && !hasDelete) then None
    else Some(destination)
  }
}
