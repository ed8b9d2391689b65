/** Failure-carrying values shared by every layer of the custody model. */
module Results {

  /** A value that may be absent, such as the bytes of a malformed hex string. */
  datatype Option<+T> = None | Some(value: T)

  /** Every way an operation of the custody core can fail. */
  datatype PgpError =
    | GenerationError    // the key generator could not produce fresh key material
    | InvalidKey         // a supplied key does not read back as a key of the right kind
    | NoRecipients       // a message was to be sealed to an empty recipient list
    | UnlockError        // the composite passphrase does not unlock the private key
    | MalformedEnvelope  // the text is not an armored message the cipher produced
    | NotARecipient      // the unlocked key is not among the message's recipients
    | MissingRecord      // a database table holds no row at the index read

  /** The outcome of an operation: its value, or the reason it failed. */
  datatype Result<+T> = Ok(value: T) | Err(error: PgpError) {

    predicate IsFailure() {
      Err?
    }

    function PropagateFailure<U>(): Result<U>
      requires Err?
    {
      Err(error)
    }

    function Extract(): T
      requires Ok?
    {
      value
    }
  }
}
