/** The JSON messages of the transfer protocol and the assumptions made on their encoding. */
module Wire {
  import opened Options
  import opened Framing

  datatype FileDto = FileDto(id: string, fileName: string, size: nat)

  /** Everything either peer serialises. The PIN responses of both directions
      and the token and file-list responses share their `status` tags. */
  datatype Payload =
    | Nonce(nonce: Bytes)
    | TokenRequest(token: string)
    | TokenOk(token: string)
    | TokenPinRequired(token: string)
    | InvalidSignature
    | Pin(pin: string)
    | PinOk
    | PinRequired
    | TooManyAttempts
    | FileOffer(files: seq<FileDto>)
    | FileTokens(tokens: map<string, string>)
    | Declined
    | FileHeader(id: string, headerToken: string)
    | FileStatus(id: string, success: bool, error: Option<string>)

  datatype Status = StatusOk | StatusPinRequired | StatusTooManyAttempts | StatusOther

  /** The `status` tag; decoding a unit variant ignores every other field. */
  function StatusOf(p: Payload): Status {
    match p
    case TokenOk(_) | PinOk | FileOffer(_) | FileTokens(_) => StatusOk
    case TokenPinRequired(_) | PinRequired => StatusPinRequired
    case TooManyAttempts => StatusTooManyAttempts
    case _ => StatusOther
  }

  datatype Codec = Codec(encode: Payload -> Bytes, decode: Bytes -> Option<Payload>)

  /** Decoding undoes encoding, and no encoded object is as short as the delimiter. */
  ghost predicate Faithful(codec: Codec) {
    && (forall p :: codec.decode(codec.encode(p)) == Some(p))
    && (forall p :: |codec.encode(p)| > 1)
    && (forall d: Bytes :: |d| <= 1 ==> codec.decode(d).None?)
  }

  function TextOf(codec: Codec, p: Payload): Message {
    Text(codec.encode(p))
  }

  function FrameOf(codec: Codec, p: Payload): seq<Message> {
    Frame(codec.encode(p))
  }
}
