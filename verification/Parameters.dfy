/** The parameters a configuration can hold and the type each is declared with
    (`rsvp_configuration.h` and the constructor of `rsvp_configuration`). */
module Parameters {
  import opened Bytes
  import opened Binary32

  type Param = n: nat | n < 256

  const RC_SESSION_DEST_ADDR: Param := 1
  const RC_TUNNEL_ID: Param := 2
  const RC_EXTENDED_IPV4_ADDR: Param := 3
  const RC_CONTROL_OUT_IF_ADDR: Param := 4
  const RC_CONTROL_OUT_IF_HANDLE: Param := 5
  const RC_REFRESH_PERIOD: Param := 6
  const RC_SCOPE_ADDR: Param := 7
  const RC_WILDCARD_FILTER: Param := 8
  const RC_FIXED_FILTER: Param := 9
  const RC_SHARED_EXPLICIT: Param := 10
  const RC_TOKEN_BUCKET_RATE: Param := 11
  const RC_TOKEN_BUCKET_SIZE: Param := 12
  const RC_PEAK_DATA_RATE: Param := 13
  const RC_MINIMUM_POLICED_UNIT: Param := 14
  const RC_MAXIMUM_PACKET_SIZE: Param := 15
  const RC_RATE: Param := 16
  const RC_SLACK_TERM: Param := 17
  const RC_FILTER_SRC_ADDR: Param := 18
  const RC_FILTER_SRC_PORT: Param := 19
  const RC_SENDER_SRC_ADDR: Param := 20
  const RC_SENDER_SRC_ID: Param := 21
  const RC_RESV_CONFIRM_RECV_ADDR: Param := 22
  const RC_LABEL: Param := 23
  const RC_LSP_ENC_TYPE: Param := 24
  const RC_LSP_SWITCHING_TYPE: Param := 25
  const RC_LSP_GPID: Param := 26
  const RC_HELLO_SRC_INSTANCE: Param := 27
  const RC_HELLO_DST_INSTANCE: Param := 28
  const RC_HELLO_REQ_ACK: Param := 29
  const RC_RESTART_TIME: Param := 30
  const RC_RECOVERY_TIME: Param := 31
  const RC_SETUP_PRIORITY: Param := 32
  const RC_HOLDING_PRIORITY: Param := 33
  const RC_LOCAL_PROTECTION_FLAG: Param := 34
  const RC_LABEL_RECORDING_FLAG: Param := 35
  const RC_SE_STYLE_FLAG: Param := 36
  const RC_SESSION_NAME: Param := 37
  const RC_ERO: Param := 38
  const RC_RSVP_HOP_TLVS: Param := 39
  const RC_ERROR_NODE_ADDR: Param := 40
  const RC_ERROR_FLAGS: Param := 41
  const RC_ERROR_CODE: Param := 42
  const RC_ERROR_VALUE: Param := 43
  const RC_SSDH_SIGNAL_TYPE: Param := 44
  const RC_SSDH_RCC: Param := 45
  const RC_SSDH_NCC: Param := 46
  const RC_SSDH_NVC: Param := 47
  const RC_SSDH_MULTIPLIER: Param := 48
  const RC_SSDH_TRANSPARENCY: Param := 49
  const RC_SSDH_PROFILE: Param := 50
  const RC_MSG_ID_FLAGS: Param := 51
  const RC_MSG_ID_EPOCH: Param := 52
  const RC_MSG_ID_ID: Param := 53
  const RC_MSG_ID_ACK_NACK: Param := 54
  const RC_UPSTREAM_LABEL: Param := 55
  const RC_ADMIN_STATUS_RTAD_FLAGS: Param := 56
  const RC_TNA_SRC_ADDR: Param := 57
  const RC_TNA_DST_ADDR: Param := 58
  const RC_DATA_OUT_IF_ADDR: Param := 59
  const RC_DATA_OUT_IF_HANDLE: Param := 60
  const RC_DATA_IN_IF_ADDR: Param := 61
  const RC_DATA_IN_IF_HANDLE: Param := 62
  const RC_TR_D_ADDR: Param := 63
  const RC_TR_RD_ADDR: Param := 64
  const RC_CALL_ID: Param := 65
  const RC_CALL_ID_ADDR_TYPE: Param := 66
  const RC_CALL_ID_SRC_TN_ADDR: Param := 67
  const RC_CALL_ID_LOCAL_ID1: Param := 68
  const RC_CALL_ID_LOCAL_ID2: Param := 69
  const RC_CALL_ID_IS: Param := 70
  const RC_CALL_ID_ITU_CC1: Param := 71
  const RC_CALL_ID_ITU_CC2: Param := 72
  const RC_CALL_ID_UAPC1: Param := 73
  const RC_CALL_ID_UAPC2: Param := 74
  const RC_PATH_STATUS: Param := 75
  const RC_SERVICE_LEVEL: Param := 76
  const RC_ETHERNET_CIR: Param := 77
  const RC_ETHERNET_CBS: Param := 78
  const RC_ETHERNET_EIR: Param := 79
  const RC_ETHERNET_EBS: Param := 80
  const RC_ETHERNET_SW_GRANUALITY: Param := 81
  const RC_ETHERNET_INDEX: Param := 82
  const RC_ETHERNET_PROFILE: Param := 83
  const RC_SREFRESH_MESSAGE_ID: Param := 84
  const RC_NOTIFY_ADDRESS: Param := 85

  /** `RC_ERO` holds a `struct rc_ero`: the address as it lies in memory, the prefix length, the loose flag and two
      bytes of padding. */
  const ERO_SIZE: nat := 8

  datatype Kind = UC | US | UI | CS | VS | F

  datatype ParamType = Untyped | Scalar(kind: Kind) | Table(kind: Kind)

  function TypeOf(p: Param): ParamType {
    if p in {
      RC_SCOPE_ADDR, RC_RSVP_HOP_TLVS
    } then Table(UI)
    else if p in {
      RC_ERO
    } then Table(VS)
    else if p in {
      RC_SESSION_NAME
    } then Scalar(CS)
    else if p in {
      RC_TOKEN_BUCKET_RATE, RC_TOKEN_BUCKET_SIZE, RC_PEAK_DATA_RATE, RC_RATE, RC_ETHERNET_CIR,
      RC_ETHERNET_CBS, RC_ETHERNET_EIR, RC_ETHERNET_EBS
    } then Scalar(F)
    else if p in {
      RC_WILDCARD_FILTER, RC_FIXED_FILTER, RC_SHARED_EXPLICIT, RC_LSP_ENC_TYPE, RC_LSP_SWITCHING_TYPE,
      RC_HELLO_REQ_ACK, RC_SETUP_PRIORITY, RC_HOLDING_PRIORITY, RC_LOCAL_PROTECTION_FLAG,
      RC_LABEL_RECORDING_FLAG, RC_SE_STYLE_FLAG, RC_ERROR_FLAGS, RC_ERROR_CODE, RC_SSDH_SIGNAL_TYPE,
      RC_SSDH_RCC, RC_MSG_ID_FLAGS, RC_MSG_ID_ACK_NACK, RC_ADMIN_STATUS_RTAD_FLAGS, RC_CALL_ID_ADDR_TYPE,
      RC_SERVICE_LEVEL, RC_ETHERNET_INDEX, RC_ETHERNET_PROFILE
    } then Scalar(UC)
    else if p in {
      RC_SESSION_DEST_ADDR, RC_EXTENDED_IPV4_ADDR, RC_CONTROL_OUT_IF_ADDR, RC_CONTROL_OUT_IF_HANDLE,
      RC_REFRESH_PERIOD, RC_MINIMUM_POLICED_UNIT, RC_MAXIMUM_PACKET_SIZE, RC_SLACK_TERM,
      RC_FILTER_SRC_ADDR, RC_SENDER_SRC_ADDR, RC_RESV_CONFIRM_RECV_ADDR, RC_HELLO_SRC_INSTANCE,
      RC_HELLO_DST_INSTANCE, RC_RESTART_TIME, RC_RECOVERY_TIME, RC_ERROR_NODE_ADDR, RC_SSDH_TRANSPARENCY,
      RC_SSDH_PROFILE, RC_MSG_ID_EPOCH, RC_MSG_ID_ID, RC_UPSTREAM_LABEL, RC_TNA_SRC_ADDR, RC_TNA_DST_ADDR,
      RC_DATA_OUT_IF_ADDR, RC_DATA_OUT_IF_HANDLE, RC_DATA_IN_IF_ADDR, RC_DATA_IN_IF_HANDLE, RC_TR_D_ADDR,
      RC_TR_RD_ADDR, RC_CALL_ID, RC_CALL_ID_SRC_TN_ADDR, RC_CALL_ID_LOCAL_ID1, RC_CALL_ID_LOCAL_ID2,
      RC_CALL_ID_IS, RC_CALL_ID_ITU_CC1, RC_CALL_ID_UAPC2, RC_PATH_STATUS, RC_NOTIFY_ADDRESS
    } then Scalar(UI)
    else if p in {
      RC_TUNNEL_ID, RC_FILTER_SRC_PORT, RC_SENDER_SRC_ID, RC_LSP_GPID, RC_ERROR_VALUE, RC_SSDH_NCC,
      RC_SSDH_NVC, RC_SSDH_MULTIPLIER, RC_CALL_ID_ITU_CC2, RC_CALL_ID_UAPC1, RC_ETHERNET_SW_GRANUALITY
    } then Scalar(US)
    else if p in {
      RC_LABEL
    } then Scalar(VS)
    else Untyped
  }

  lemma FloatsAreScalars(p: Param)
    ensures TypeOf(p) != Table(F)
  {
  }

  /** A C string: its bytes up to the terminator. */
  type CString = s: seq<byte> | forall i :: 0 <= i < |s| ==> s[i] != 0

  /** A C string ends at its first zero byte. */
  function CStringOf(s: seq<byte>): (text: CString)
    ensures text <= s
  {
    if s == [] || s[0] == 0 then [] else [s[0]] + CStringOf(s[1..])
  }

  datatype Value =
    | Char(c: byte)
    | Short(s: u16)
    | Int(i: u32)
    | Text(text: CString)
    | Block(bytes: seq<byte>)
    | Real(f: Float)

  function KindOf(v: Value): Kind {
    match v
    case Char(_) => UC
    case Short(_) => US
    case Int(_) => UI
    case Text(_) => CS
    case Block(_) => VS
    case Real(_) => F
  }

  /** The size recorded in `void_size`; only blocks of memory have one. */
  function SizeOf(v: Value): nat {
    if v.Block? then |v.bytes| else 0
  }
}
