/** Shared vocabulary of the client model: optional values, the observable side effects a
    handler performs (alerts and navigation), and what a rejected promise carries. */
module Common {

  /** JavaScript `null`/`undefined` versus a present value. */
  datatype Option<+T> = None | Some(value: T)

  /** A side effect a handler requests from the browser. `Push` is a client-side route change
      (`router.push`), `Reload` a full navigation (`window.location.href = …`), and `Delayed`
      effects scheduled with `setTimeout`. */
  datatype Effect =
    | Alert(message: string)
    | Push(path: string)
    | Reload(href: string)
    | Delayed(ms: nat, effects: seq<Effect>)

  /** What a `catch` clause receives: an `Error` instance with its `message`, or any other
      thrown value. */
  datatype Thrown = ErrorThrown(message: string) | OtherThrown

  /** The outcome of awaiting a promise that either resolves with a value or rejects. */
  datatype Outcome<+T> = Resolved(value: T) | Rejected(thrown: Thrown)

  /** JavaScript truthiness of an optional string: `undefined`, `null` and `""` are falsy. */
  predicate Truthy(s: Option<string>)
  {
    s.Some? && s.value != ""
  }

  /** `a` is `b` with some elements left out, the rest in their original order. */
  predicate IsSubsequence<T(==)>(a: seq<T>, b: seq<T>)
  {
    if a == [] then true
    else if b == [] then false
    else (a[0] == b[0] && IsSubsequence(a[1..], b[1..])) || IsSubsequence(a, b[1..])
  }

  /** Dropping one more element in front keeps a subsequence one. */
  lemma {:induction false} SubsequenceOfTail<T>(a: seq<T>, b: seq<T>)
    requires b != [] && IsSubsequence(a, b[1..])
    ensures IsSubsequence(a, b)
  {
  }
}
