/** The few Python runtime notions the extension's behaviour depends on. */
module Python {

  /** The exceptions that can leave, or be caught by, the inbound listeners. */
  datatype PyError =
    | IndexError                   // `custom_id[i]` past the end of the string
    | TypeError                    // calling a registered `None`
    | JsonDecodeError              // the one failure the decoder may raise that the listeners catch
    | OtherException(name: string) // any other failure of the decoder, which the listeners let through
}
