/** The enumerations of the wire format and their byte tables.  Each `Code`
    is the discriminant of an enumerator, each `…FromCode` is the
    `try_from_primitive` or `from_bits` that reads it back. */
module Enumerations {
  import opened Primitives

  datatype MajorVersion = Major1 {
    function Code(): byte {
      match this
      case Major1 => 0xc
    }
  }

  datatype MinorVersion = MinorDefault | MinorOne {
    function Code(): byte {
      match this
      case MinorDefault => 0x0
      case MinorOne => 0x1
    }
  }

  datatype PacketType = Authentication | Authorisation | Accounting {
    function Code(): byte {
      match this
      case Authentication => 0x1
      case Authorisation => 0x2
      case Accounting => 0x3
    }
  }

  /** `TacacsFlags`: the unencrypted flag 0x01 and the single-connect flag 0x04. */
  datatype HeaderFlags = HeaderFlags(unencrypted: bool, singleConnect: bool) {
    function Bits(): byte {
      (if unencrypted then 0x01 else 0) + (if singleConnect then 0x04 else 0)
    }
  }

  datatype AccountingFlags = AccountingFlags(start: bool, stop: bool, watchdog: bool) {
    function Bits(): byte {
      (if start then 0x02 else 0) + (if stop then 0x04 else 0) + (if watchdog then 0x08 else 0)
    }
  }

  datatype AuthenMethod =
    | MethodNotSet | MethodNone | MethodKrb5 | MethodLine | MethodEnable | MethodLocal
    | MethodTacacsPlus | MethodGuest | MethodRadius | MethodKrb4 | MethodRcmd
  {
    function Code(): byte {
      match this
      case MethodNotSet => 0x00
      case MethodNone => 0x01
      case MethodKrb5 => 0x02
      case MethodLine => 0x03
      case MethodEnable => 0x04
      case MethodLocal => 0x05
      case MethodTacacsPlus => 0x06
      case MethodGuest => 0x08
      case MethodRadius => 0x10
      case MethodKrb4 => 0x11
      case MethodRcmd => 0x20
    }
  }

  datatype AuthenType = TypeNotSet | TypeAscii | TypePap | TypeChap | TypeMschap | TypeMschapV2 {
    function Code(): byte {
      match this
      case TypeNotSet => 0x00
      case TypeAscii => 0x01
      case TypePap => 0x02
      case TypeChap => 0x03
      case TypeMschap => 0x05
      case TypeMschapV2 => 0x06
    }
  }

  datatype AuthenService =
    | ServiceNone | ServiceLogin | ServiceEnable | ServicePpp | ServicePt
    | ServiceRcmd | ServiceX25 | ServiceNasi | ServiceFwproxy
  {
    function Code(): byte {
      match this
      case ServiceNone => 0x0
      case ServiceLogin => 0x1
      case ServiceEnable => 0x2
      case ServicePpp => 0x3
      case ServicePt => 0x5
      case ServiceRcmd => 0x6
      case ServiceX25 => 0x7
      case ServiceNasi => 0x8
      case ServiceFwproxy => 0x9
    }
  }

  datatype AccountingStatus = StatusSuccess | StatusError | StatusFollow {
    function Code(): byte {
      match this
      case StatusSuccess => 0x01
      case StatusError => 0x02
      case StatusFollow => 0x21
    }
  }

  // ---------- Reading the tables backwards ----------
  // Each reader's contract makes it the exact inverse of the table: it accepts
  // a byte if and only if some enumerator has that code, and returns that one.

  function MajorVersionFromCode(b: byte): (r: Option<MajorVersion>)
    ensures forall m: MajorVersion :: r == Some(m) <==> m.Code() == b
  {
    match b
    case 0xc =>
      assert forall m: MajorVersion {:trigger m.Code()} :: m.Major1?;
      Some(Major1)
    case _ => None
  }

  function MinorVersionFromCode(b: byte): (r: Option<MinorVersion>)
    ensures forall m: MinorVersion :: r == Some(m) <==> m.Code() == b
  {
    match b
    case 0x0 => Some(MinorDefault)
    case 0x1 => Some(MinorOne)
    case _ => None
  }

  function PacketTypeFromCode(b: byte): (r: Option<PacketType>)
    ensures forall t: PacketType :: r == Some(t) <==> t.Code() == b
  {
    match b
    case 0x1 => Some(Authentication)
    case 0x2 => Some(Authorisation)
    case 0x3 => Some(Accounting)
    case _ => None
  }

  function HeaderFlagsFromBits(b: byte): (r: Option<HeaderFlags>)
    ensures forall f: HeaderFlags :: r == Some(f) <==> f.Bits() == b
  {
    if b < 8 && b / 2 % 2 == 0 then
      Some(HeaderFlags(b % 2 == 1, b / 4 == 1))
    else
      None
  }

  function AccountingFlagsFromBits(b: byte): (r: Option<AccountingFlags>)
    ensures forall f: AccountingFlags :: r == Some(f) <==> f.Bits() == b
  {
    if b < 16 && b % 2 == 0 then
      Some(AccountingFlags(b / 2 % 2 == 1, b / 4 % 2 == 1, b / 8 == 1))
    else
      None
  }

  function AuthenMethodFromCode(b: byte): (r: Option<AuthenMethod>)
    ensures forall m: AuthenMethod :: r == Some(m) <==> m.Code() == b
  {
    match b
    case 0x00 => Some(MethodNotSet)
    case 0x01 => Some(MethodNone)
    case 0x02 => Some(MethodKrb5)
    case 0x03 => Some(MethodLine)
    case 0x04 => Some(MethodEnable)
    case 0x05 => Some(MethodLocal)
    case 0x06 => Some(MethodTacacsPlus)
    case 0x08 => Some(MethodGuest)
    case 0x10 => Some(MethodRadius)
    case 0x11 => Some(MethodKrb4)
    case 0x20 => Some(MethodRcmd)
    case _ => None
  }

  function AuthenTypeFromCode(b: byte): (r: Option<AuthenType>)
    ensures forall t: AuthenType :: r == Some(t) <==> t.Code() == b
  {
    match b
    case 0x00 => Some(TypeNotSet)
    case 0x01 => Some(TypeAscii)
    case 0x02 => Some(TypePap)
    case 0x03 => Some(TypeChap)
    case 0x05 => Some(TypeMschap)
    case 0x06 => Some(TypeMschapV2)
    case _ => None
  }

  function AuthenServiceFromCode(b: byte): (r: Option<AuthenService>)
    ensures forall s: AuthenService :: r == Some(s) <==> s.Code() == b
  {
    match b
    case 0x0 => Some(ServiceNone)
    case 0x1 => Some(ServiceLogin)
    case 0x2 => Some(ServiceEnable)
    case 0x3 => Some(ServicePpp)
    case 0x5 => Some(ServicePt)
    case 0x6 => Some(ServiceRcmd)
    case 0x7 => Some(ServiceX25)
    case 0x8 => Some(ServiceNasi)
    case 0x9 => Some(ServiceFwproxy)
    case _ => None
  }

  function AccountingStatusFromCode(b: byte): (r: Option<AccountingStatus>)
    ensures forall s: AccountingStatus :: r == Some(s) <==> s.Code() == b
  {
    match b
    case 0x01 => Some(StatusSuccess)
    case 0x02 => Some(StatusError)
    case 0x21 => Some(StatusFollow)
    case _ => None
  }
}
