/** The logical channel identities that tag every frame read or written, and
    the table of names used when a transfer on one of them is reported. */
module Comms {

  datatype Comm =
    | Req      // COMM_REQ
    | Thumb    // COMM_THUMB
    | Cert     // COMM_CERT
    | Pay      // COMM_PAY
    | Nonce    // COMM_NONCE
    | Tok      // COMM_TOK
    | ChngOp   // COMM_CHNG_OP
    | ChngAck  // COMM_CHNG_ACK
    | Sign     // COMM_SIGN
    | Csr      // COMM_CSR
    | Issuer   // COMM_ISSUER
    | Chain    // COMM_CHAIN

  /** Number of channel identities: the entries of the `comms` table. */
  const COMM_MAX: nat := 12

  /** The `comms` table, indexed by a channel identity. */
  const CommNames: seq<string> := [
    "req", "thumbprint", "cert", "payload", "nonce", "token",
    "challenge-op", "challenge-ack", "account", "csr", "issuer", "chain"
  ]

  /** The position of an identity in the `comms` table. */
  function Index(c: Comm): (i: nat)
    ensures i < COMM_MAX == |CommNames|
  {
    match c
    case Req => 0
    case Thumb => 1
    case Cert => 2
    case Pay => 3
    case Nonce => 4
    case Tok => 5
    case ChngOp => 6
    case ChngAck => 7
    case Sign => 8
    case Csr => 9
    case Issuer => 10
    case Chain => 11
  }

  /** The name a diagnostic about a transfer on `c` carries. */
  function Name(c: Comm): string
  {
    CommNames[Index(c)]
  }

  /** Every entry of the table names exactly one identity, so a diagnostic
      always says which channel it is about. */
  lemma NamesIdentify(a: Comm, b: Comm)
    ensures Name(a) == Name(b) <==> a == b
  {
  }
}
