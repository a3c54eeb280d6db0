/** The text patch the collector emits and the applier consumes. */
module Types {

  /** Replace `source[start..end]` with `text`. */
  datatype Patch = Patch(start: nat, end: nat, text: string)
}
