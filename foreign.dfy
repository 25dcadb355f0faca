/**
 * The helpers the router calls but does not define. Each is a function value the
 * caller supplies; nothing in this model assumes anything about how they behave,
 * and every property is stated relative to them.
 */
module Foreign {
  import opened Wrappers

  datatype Host = Host(
    /** `concatRoute(...segments)` from @mongez/concat-route; an absent entry is `undefined`. */
    concatRoute: seq<Option<string>> -> string,
    /** `isUrl` (src/helpers.ts). */
    isUrl: string -> bool,
    /** `Is.url` (@mongez/supportive-is). */
    isUrlLib: string -> bool,
    /** `Is.numeric` (@mongez/supportive-is). */
    isNumericLib: string -> bool,
    /** `decodeURIComponent`. */
    decodeUri: string -> string,
    /** `ltrim(text, prefix)` from @mongez/reinforcements. */
    ltrim: (string, string) -> string,
    /** `text.match(pattern)` with a string pattern, which JavaScript compiles to a RegExp. */
    regexMatches: (string, string) -> bool
  )

  /** The argument list of a call whose every argument is a defined string. */
  function Args(parts: seq<string>): (args: seq<Option<string>>)
    ensures |args| == |parts|
    ensures forall i :: 0 <= i < |parts| ==> args[i] == Some(parts[i])
  {
    seq(|parts|, i requires 0 <= i < |parts| => Some(parts[i]))
  }

  /** `concatRoute(p0, p1, ...)` with defined string arguments. */
  function Concat(host: Host, parts: seq<string>): string {
    host.concatRoute(Args(parts))
  }
}
