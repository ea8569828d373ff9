/** The C library as the server sees it (crates/smdp/src/rsp/mod.rs and
    crates/smdp/src/rsp/error.rs): one deterministic function per entry point.
    Nothing is assumed about any of them; where a property needs a documented
    promise of the library, that promise is a hypothesis of the lemma. */
module Rsp {
  import opened Basics

  /** An RSP session's server-side state: octets whose meaning only the library
      knows. */
  datatype Session = Session(state: Bytes)

  datatype RspError = Refused | NotReached

  /** -1 is an answer, everything else a question never reached. */
  function FromCode(code: int): (e: RspError)
    ensures e == Refused <==> code == -1
  {
    if code == -1 then Refused else NotReached
  }

  /** A return code, and the out-parameter that counts when the code is 0. */
  datatype Returned<+T> = Returned(code: int, out: T)

  function Checked<T>(r: Returned<T>): Result<T, RspError> {
    if r.code != 0 then Err(FromCode(r.code)) else Ok(r.out)
  }

  datatype InitiateInput = InitiateInput(
    euiccChallenge: Bytes16, euiccInfo1: Bytes, transactionId: Bytes16, serverChallenge: Bytes16,
    serverAddress: string, requestedAddress: string)

  datatype InitiateFields = InitiateFields(
    serverSigned1: Bytes, serverSignature1: Bytes, euiccCiPkid: Bytes, serverCertificate: Bytes)

  datatype AuthenticateFields = AuthenticateFields(
    profileMetadata: Bytes, smdpSigned2: Bytes, smdpSignature2: Bytes, smdpCertificate: Bytes)

  datatype Notification = Notification(
    isInstallationResult: bool, seqNumber: int, operation: int, iccid: Option<Bytes10>, installed: bool)

  /** A call on a session returns its new state whatever the code: a refused
      question may still have changed it. */
  datatype Library = Library(
    initiate: InitiateInput -> Returned<(Session, Bytes)>,
    initiateFields: Bytes -> Returned<InitiateFields>,
    authenticate: (Session, Bytes, Bytes) -> (Session, Returned<Bytes>),
    authenticateFields: Bytes -> Returned<AuthenticateFields>,
    boundPackage: (Session, Bytes, Bytes, Bytes) -> (Session, Returned<Bytes>),
    euiccCert: Session -> Returned<Bytes>,
    eid: Session -> Returned<Option<string>>,
    notificationMetadata: Bytes -> Returned<Notification>,
    verifyNotification: (Option<Bytes>, Bytes) -> Returned<Notification>)

  /** A NUL in either address keeps the question from being asked. */
  function Initiate(lib: Library, input: InitiateInput): Result<(Session, Bytes), RspError> {
    if '\0' in input.serverAddress || '\0' in input.requestedAddress then Err(NotReached)
    else Checked(lib.initiate(input))
  }

  /** The EID octets must be UTF-8; `None` is the answer that is not. */
  function Eid(lib: Library, s: Session): Option<string> {
    match Checked(lib.eid(s))
    case Ok(e) => e
    case Err(_) => None
  }

  function EuiccCert(lib: Library, s: Session): Option<Bytes> {
    match Checked(lib.euiccCert(s))
    case Ok(c) => Some(c)
    case Err(_) => None
  }

  /** Reading without verifying: never says that something was installed. */
  function NotificationMetadata(lib: Library, raw: Bytes): Option<Notification> {
    match Checked(lib.notificationMetadata(raw))
    case Ok(n) => Some(n.(installed := false))
    case Err(_) => None
  }

  function VerifyNotification(lib: Library, cert: Option<Bytes>, raw: Bytes): Option<Notification> {
    match Checked(lib.verifyNotification(cert, raw))
    case Ok(n) => Some(n)
    case Err(_) => None
  }
}
