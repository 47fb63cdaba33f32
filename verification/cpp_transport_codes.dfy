/**
 * `TransportResult` (the C interface of the transport library): a 32-bit
 * result code whose top byte is the error category, whose second-lowest
 * byte names the module, and whose low byte is the detail. Success is 0.
 */
module CppTransportCodes {
  import opened Common

  const TransportSuccess: nat := 0

  /** The error categories, bits 31-24. */
  datatype Category = Param | Device | Memory | Communication | Timeout | State | Resource | Protocol | Unknown

  function CategoryByte(c: Category): (b: nat)
    ensures 1 <= b < 0x100
  {
    match c
    case Param => 0x01
    case Device => 0x02
    case Memory => 0x03
    case Communication => 0x04
    case Timeout => 0x05
    case State => 0x06
    case Resource => 0x07
    case Protocol => 0x08
    case Unknown => 0xFF
  }

  /** The modules, bits 15-8. */
  datatype Module = Core | DeviceModule | Session | Buffer

  function ModuleByte(m: Module): (b: nat)
    ensures 1 <= b < 0x100
  {
    match m
    case Core => 0x01
    case DeviceModule => 0x02
    case Session => 0x03
    case Buffer => 0x04
  }

  /** A code built from its three fields: category, then module, then detail, each in its own byte. */
  function Compose(category: nat, moduleId: nat, detail: nat): (code: nat)
    requires category < 0x100 && moduleId < 0x100 && detail < 0x100
    ensures code < 0x1_0000_0000
  {
    category * 0x100_0000 + moduleId * 0x100 + detail
  }

  /** The category field of a code. */
  function CategoryField(code: nat): nat { code / 0x100_0000 }

  /** The byte between bits 23 and 16, which no code uses. */
  function ReservedField(code: nat): nat { (code / 0x1_0000) % 0x100 }

  /** The module field of a code. */
  function ModuleField(code: nat): nat { (code / 0x100) % 0x100 }

  /** The detail field of a code. */
  function DetailField(code: nat): nat { code % 0x100 }

  /** The fields read back out of a composed code are the ones put in, and bits 23-16 stay clear. */
  lemma ComposeFields(category: nat, moduleId: nat, detail: nat)
    requires category < 0x100 && moduleId < 0x100 && detail < 0x100
    ensures CategoryField(Compose(category, moduleId, detail)) == category
    ensures ReservedField(Compose(category, moduleId, detail)) == 0
    ensures ModuleField(Compose(category, moduleId, detail)) == moduleId
    ensures DetailField(Compose(category, moduleId, detail)) == detail
  {
    var code := Compose(category, moduleId, detail);
    assert code == (category * 0x1_0000 + moduleId) * 0x100 + detail;
    DivModOfLinear(category * 0x1_0000 + moduleId, detail, 0x100);
    assert category * 0x1_0000 + moduleId == (category * 0x100) * 0x100 + moduleId;
    DivModOfLinear(category * 0x100, moduleId, 0x100);
    assert code == (category * 0x100) * 0x1_0000 + (moduleId * 0x100 + detail);
    DivModOfLinear(category * 0x100, moduleId * 0x100 + detail, 0x1_0000);
    DivModOfLinear(category, 0, 0x100);
    assert code == category * 0x100_0000 + (moduleId * 0x100 + detail);
    DivModOfLinear(category, moduleId * 0x100 + detail, 0x100_0000);
  }

  /** The header joins the fields with bitwise or; the fields sit in disjoint bytes, so that is the sum `Compose` takes. */
  lemma OrIsCompose(category: bv8, moduleId: bv8, detail: bv8)
    ensures (((category as bv32) << 24) | ((moduleId as bv32) << 8) | (detail as bv32)) as int ==
            Compose(category as int, moduleId as int, detail as int)
  {
  }

  /** The specific result codes. */
  datatype ErrorCode =
    | ParamNull | ParamInvalid | ParamLength | ParamType
    | DeviceNotConnected | DeviceAccessDenied | DeviceInvalidHandle | DeviceLost | DeviceFailure
    | MemoryInsufficient | MemoryAllocFailed | MemoryOverflow
    | CommunicationWriteFailed | CommunicationReadFailed | CommunicationChecksum | CommunicationTruncated
    | TimeoutOperation | TimeoutRead | TimeoutWrite
    | StateInvalid | StateConflict | StateUninitialized

  /** The category, module and detail each specific code is built from. */
  function Parts(e: ErrorCode): (Category, Module, nat)
  {
    match e
    case ParamNull => (Param, Core, 0x01)
    case ParamInvalid => (Param, Core, 0x02)
    case ParamLength => (Param, Core, 0x03)
    case ParamType => (Param, Core, 0x04)
    case DeviceNotConnected => (Device, DeviceModule, 0x01)
    case DeviceAccessDenied => (Device, DeviceModule, 0x02)
    case DeviceInvalidHandle => (Device, DeviceModule, 0x03)
    case DeviceLost => (Device, DeviceModule, 0x04)
    case DeviceFailure => (Device, DeviceModule, 0x05)
    case MemoryInsufficient => (Memory, Core, 0x01)
    case MemoryAllocFailed => (Memory, Core, 0x02)
    case MemoryOverflow => (Memory, Core, 0x03)
    case CommunicationWriteFailed => (Communication, DeviceModule, 0x01)
    case CommunicationReadFailed => (Communication, DeviceModule, 0x02)
    case CommunicationChecksum => (Communication, DeviceModule, 0x03)
    case CommunicationTruncated => (Communication, DeviceModule, 0x04)
    case TimeoutOperation => (Timeout, Session, 0x01)
    case TimeoutRead => (Timeout, Session, 0x02)
    case TimeoutWrite => (Timeout, Session, 0x03)
    case StateInvalid => (State, Core, 0x01)
    case StateConflict => (State, Core, 0x02)
    case StateUninitialized => (State, Core, 0x03)
  }

  /** The specific code built from given parts, if there is one. */
  function FromParts(p: (Category, Module, nat)): Option<ErrorCode>
  {
    match p
    case (Param, Core, 1) => Some(ParamNull)
    case (Param, Core, 2) => Some(ParamInvalid)
    case (Param, Core, 3) => Some(ParamLength)
    case (Param, Core, 4) => Some(ParamType)
    case (Device, DeviceModule, 1) => Some(DeviceNotConnected)
    case (Device, DeviceModule, 2) => Some(DeviceAccessDenied)
    case (Device, DeviceModule, 3) => Some(DeviceInvalidHandle)
    case (Device, DeviceModule, 4) => Some(DeviceLost)
    case (Device, DeviceModule, 5) => Some(DeviceFailure)
    case (Memory, Core, 1) => Some(MemoryInsufficient)
    case (Memory, Core, 2) => Some(MemoryAllocFailed)
    case (Memory, Core, 3) => Some(MemoryOverflow)
    case (Communication, DeviceModule, 1) => Some(CommunicationWriteFailed)
    case (Communication, DeviceModule, 2) => Some(CommunicationReadFailed)
    case (Communication, DeviceModule, 3) => Some(CommunicationChecksum)
    case (Communication, DeviceModule, 4) => Some(CommunicationTruncated)
    case (Timeout, Session, 1) => Some(TimeoutOperation)
    case (Timeout, Session, 2) => Some(TimeoutRead)
    case (Timeout, Session, 3) => Some(TimeoutWrite)
    case (State, Core, 1) => Some(StateInvalid)
    case (State, Core, 2) => Some(StateConflict)
    case (State, Core, 3) => Some(StateUninitialized)
    case _ => None
  }

  /** Each code's parts name that code and no other. */
  lemma PartsInverse(e: ErrorCode)
    ensures FromParts(Parts(e)) == Some(e)
  {
  }

  /** A specific code's value: `category | module | detail`. */
  function Code(e: ErrorCode): (code: nat)
    ensures code < 0x1_0000_0000
  {
    var (c, m, d) := Parts(e);
    Compose(CategoryByte(c), ModuleByte(m), d)
  }

  /** Every code carries its category in the top byte and its module in bits 15-8, and none is success. */
  lemma CodeFields(e: ErrorCode)
    ensures CategoryField(Code(e)) == CategoryByte(Parts(e).0)
    ensures ModuleField(Code(e)) == ModuleByte(Parts(e).1)
    ensures DetailField(Code(e)) == Parts(e).2
    ensures Code(e) != TransportSuccess
  {
    ComposeFields(CategoryByte(Parts(e).0), ModuleByte(Parts(e).1), Parts(e).2);
  }

  /** The category bytes are distinct, and so are the module bytes. */
  lemma BytesInjective(c1: Category, c2: Category, m1: Module, m2: Module)
    ensures CategoryByte(c1) == CategoryByte(c2) ==> c1 == c2
    ensures ModuleByte(m1) == ModuleByte(m2) ==> m1 == m2
  {
  }

  /** No two specific codes share a value. */
  lemma CodesDistinct(a: ErrorCode, b: ErrorCode)
    requires Code(a) == Code(b)
    ensures a == b
  {
    CodeFields(a);
    CodeFields(b);
    BytesInjective(Parts(a).0, Parts(b).0, Parts(a).1, Parts(b).1);
    assert Parts(a) == Parts(b);
    PartsInverse(a);
    PartsInverse(b);
  }
}
