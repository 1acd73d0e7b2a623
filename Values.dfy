/**
 * What a parse produces and how it fails. A parse result is a JSON-like tree:
 * strings, lists of strings, booleans, `None`, and a nested mapping for the
 * subcommand that took over the remaining tokens.
 */
module Values {

  datatype Value =
    | Null                          // Python's `None`, the default default
    | Str(s: string)                // one consumed token
    | Strs(items: seq<string>)      // several consumed tokens
    | Bool(b: bool)                 // a flag, or a boolean default
    | Nested(fields: map<string, Value>)  // a subcommand's own result

  /** The exceptions the parser raises, one constructor per raise site the model reaches. */
  datatype Error =
    | WeirdToken(token: string)     // a positional token with no free Argument left
    | IndexOutOfRange               // `tokens[:n][0]` on an empty slice
    | BadDeclarationCount(count: nat)  // an Argument declared with other than one name
    | NoDeclarations                // an Option declared with no name at all
    | MainAlreadyAssigned           // a second `App.main`
    | NoMain                        // parse/invoke/reset before `App.main`
    | NotAMapping(key: string)      // invoke found a non-mapping under a subcommand's key

  datatype Result<+T> = Success(value: T) | Failure(error: Error)

  /** The outcome of an operation that returns nothing in Python. */
  datatype Status = Ok | Err(error: Error)
}
