/** Protocol values shared by both ends of a transfer. */
module Cfdp {
  import opened Crc

  // ---------- codes (section 5 of CCSDS 727.0-B-5) ----------

  const DIR_EOF := 4
  const DIR_FIN := 5
  const DIR_ACK := 6
  const DIR_METADATA := 7
  const DIR_NAK := 8
  const DIR_INVALID_MAX := 13

  const DC_COMPLETE := 0
  const DC_INCOMPLETE := 1
  const DC_INVALID := 2

  const FS_DISCARDED := 0
  const FS_DISCARDED_FILESTORE := 1
  const FS_RETAINED := 2
  const FS_UNREPORTED := 3
  const FS_INVALID := 4

  const ACK_STATUS_ACTIVE := 1
  const ACK_STATUS_TERMINATED := 2

  // Transaction status: -1 undefined, 0..15 the condition codes, 16.. local codes.
  type Status = int

  const ST_NO_ERROR := 0
  const ST_POS_ACK_LIMIT_REACHED := 1
  const ST_FILESTORE_REJECTION := 4
  const ST_FILE_CHECKSUM_FAILURE := 5
  const ST_FILE_SIZE_ERROR := 6
  const ST_NAK_LIMIT_REACHED := 7
  const ST_INACTIVITY_DETECTED := 8
  const ST_INVALID_FILE_STRUCTURE := 9
  const ST_CANCEL_REQUEST_RECEIVED := 15
  const ST_ACK_LIMIT_NO_FIN := 17
  const ST_ACK_LIMIT_NO_EOF := 18
  const ST_EARLY_FIN := 21
  const ST_READ_FAILURE := 22
  const ST_NO_RESOURCE := 23

  predicate IsError(s: Status) { s > ST_NO_ERROR }

  // CF_TxnStatus_To_ConditionCode
  function ToConditionCode(s: Status): nat {
    if !IsError(s) then 0
    else if s <= 11 || s == 14 || s == 15 then s
    else if s == ST_ACK_LIMIT_NO_FIN || s == ST_ACK_LIMIT_NO_EOF then ST_INACTIVITY_DETECTED
    else ST_CANCEL_REQUEST_RECEIVED
  }

  // The statuses that are condition codes of the protocol.
  predicate IsConditionCode(s: Status) { 0 <= s <= 11 || s == 14 || s == 15 }

  // Every status becomes a four-bit code that says an error exactly when there is one.
  // A status that is a condition code is that code, so different ones stay different;
  // of the others both ack limits count as inactivity, no status at all as no error,
  // and the rest as a cancel request.
  lemma ConditionCodeFaithful(s: Status)
    ensures IsConditionCode(ToConditionCode(s))
    ensures IsError(ToConditionCode(s)) <==> IsError(s)
    ensures IsConditionCode(s) <==> ToConditionCode(s) == s
    ensures s < 0 ==> ToConditionCode(s) == ST_NO_ERROR
    ensures s == ST_ACK_LIMIT_NO_FIN || s == ST_ACK_LIMIT_NO_EOF ==> ToConditionCode(s) == ST_INACTIVITY_DETECTED
    ensures IsError(s) && !IsConditionCode(s) && s != ST_ACK_LIMIT_NO_FIN && s != ST_ACK_LIMIT_NO_EOF ==>
              ToConditionCode(s) == ST_CANCEL_REQUEST_RECEIVED
  {
  }

  // ---------- packets ----------

  // A segment request; (0, 0) asks for the metadata.
  datatype Seg = Seg(start: nat, end: nat)

  datatype Pdu =
    | Metadata(closeReq: bool, size: nat, srcLen: nat, dstLen: nat)
    | FileData(offset: nat, data: seq<uint8>)
    | Eof(cc: nat, crc: nat, size: nat)
    | Fin(cc: nat, dc: nat, fs: nat)
    | Ack(directive: nat, cc: nat, status: nat)
    | Nak(segs: seq<Seg>)
    | Other(code: nat)        // a directive without a handler
    | Garbled(code: nat)      // fails to decode; code 0 stands for file data
  {
    predicate IsFileData() { FileData? || (Garbled? && code == 0) }

    function Directive(): nat
      requires !IsFileData()
    {
      match this
      case Metadata(_, _, _, _) => DIR_METADATA
      case Eof(_, _, _) => DIR_EOF
      case Fin(_, _, _) => DIR_FIN
      case Ack(_, _, _) => DIR_ACK
      case Nak(_) => DIR_NAK
      case Other(c) => c
      case Garbled(c) => c
    }
  }

  // `unacknowledged` is the txm_mode bit of the header: set for class 1.
  datatype Packet = Packet(unacknowledged: bool, pdu: Pdu)

  // The FIN fields as they fit their four, one and two bits.
  function WireFin(cc: nat, dc: nat, fs: nat): Pdu { Fin(cc % 16, dc % 2, fs % 4) }

  // ---------- configuration ----------

  datatype Config = Config(
    ackLimit: nat,       // retries of EOF, NAK and FIN
    ackTicks: nat,       // ack timer
    inactTicks: nat,     // inactivity timer
    crcRate: nat,        // checksum bytes per wakeup
    crcBlock: nat,       // bytes per read while computing the checksum (1024)
    chunkSize: nat,      // outgoing file data per PDU
    nameMax: nat,        // size of a file name buffer
    maxSegments: nat     // segment requests per NAK
  )

  // What the configuration table check and the build demand.
  predicate ValidConfig(cfg: Config) {
    && 0 < cfg.crcBlock
    && 0 < cfg.crcRate && cfg.crcRate % cfg.crcBlock == 0
    && 0 < cfg.nameMax && 0 < cfg.maxSegments
  }

  // Whether one more retry is allowed, and the count then: up while below the limit.
  function CountUp(cfg: Config, n: nat): (r: (bool, nat)) {
    if n < cfg.ackLimit then (true, n + 1) else (false, n)
  }

  // n retries in a row are all allowed exactly if they stay within the limit.
  lemma {:induction false} RetriesAllowed(cfg: Config, start: nat, n: nat)
    ensures Allowed(cfg, start, n) <==> n == 0 || start + n <= cfg.ackLimit
    decreases n
  {
    if n != 0 {
      RetriesAllowed(cfg, CountUp(cfg, start).1, n - 1);
    }
  }

  predicate Allowed(cfg: Config, start: nat, n: nat)
    decreases n
  {
    n == 0 || (CountUp(cfg, start).0 && Allowed(cfg, CountUp(cfg, start).1, n - 1))
  }

  method CheckAckNakCount(cfg: Config, counter: nat) returns (ok: bool, next: nat)
    ensures (ok, next) == CountUp(cfg, counter)
  {
    ok := counter < cfg.ackLimit;
    next := if ok then counter + 1 else counter;
  }

  // n times the ack timer and the tick on which it is found expired.
  function RetryTicks(cfg: Config, n: nat): nat {
    if n == 0 then 0 else cfg.ackTicks + 1 + RetryTicks(cfg, n - 1)
  }

  // n points in time, one period apart.
  function Every(start: nat, period: nat, n: nat): seq<nat>
    decreases n
  {
    if n == 0 then [] else [start] + Every(start + period, period, n - 1)
  }

  // ---------- files ----------

  function Zeros(n: nat): (z: seq<uint8>)
    ensures |z| == n
  {
    if n == 0 then [] else [0] + Zeros(n - 1)
  }

  // Writing behind the end of a file fills the hole with zeros.
  function WriteAt(content: seq<uint8>, pos: nat, data: seq<uint8>): (r: seq<uint8>)
  {
    if data == [] then content
    else
      var base := if |content| < pos then content + Zeros(pos - |content|) else content;
      base[..pos] + data + (if pos + |data| < |base| then base[pos + |data|..] else [])
  }

  datatype Option<T> = None | Some(value: T)
}
