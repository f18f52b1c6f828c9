/** Values shared by the hook, the components and the REST layer: the record the
    backend returns, a picked file, a toast, and how an awaited call settles. */
module Types {

  datatype Option<+T> = None | Some(value: T)

  /** A record as the REST layer returns it (HeyamaObject). Timestamps stay opaque strings. */
  datatype HeyamaObject = HeyamaObject(
    id: string,
    title: string,
    description: string,
    imageUrl: string,
    createdAt: string,
    updatedAt: string)

  /** A file the browser hands over: only its MIME type and byte size are inspected. */
  datatype File = File(name: string, mimeType: string, size: nat)

  /** A notification shown to the user; `destructive` is the error variant. */
  datatype Toast = Toast(title: string, description: string, destructive: bool)

  /** What a rejected promise carries: an `Error` instance (with its message) or any other value. */
  datatype Thrown = ErrorInstance(message: string) | OtherValue

  /** How an awaited call settles. */
  datatype Settled<+T> = Resolved(value: T) | Rejected(reason: Thrown)

  /** `err instanceof Error ? err.message : fallback`, the message every catch block derives. */
  function MessageOf(reason: Thrown, fallback: string): string
  {
    match reason
    case ErrorInstance(m) => m
    case OtherValue => fallback
  }
}
