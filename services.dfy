/** The outside services the stages call, as given functions: the chat
    completion and embedding endpoints, JSON parsing and printing, ISO date
    parsing, the string form of compound values, the float32 rounding of a
    number, randomUUID, the clock and the Redis key pattern matcher. A call that can fail returns a Result.
    randomUUID and the clock are read once per file, so they are indexed by
    the file's position in the run. */
module Services {
  import opened Js

  datatype Services = Services(
    complete: string -> Result<string>,
    embed: string -> Result<seq<word>>,
    parseJson: string -> Result<Value>,
    stringify: Value -> string,
    parseDate: string -> Instant,
    show: Value -> string,
    float32: Value -> word,
    uuid: nat -> string,
    now: nat -> int,
    glob: string -> string -> bool)

  /** The text an embedding is computed from: `<h1>${title}</h1>\n${body}`. */
  function EmbeddingText(s: Services, title: Value, body: Value): string {
    "<h1>" + ToStr(title, s.show) + "</h1>\n" + ToStr(body, s.show)
  }
}
