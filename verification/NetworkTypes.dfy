/** Identities and limits shared by the network modules. */
module NetworkTypes {
  import opened Wire

  const ZERO_HOST: seq<byte> := [0, 0, 0, 0, 0, 0, 0, 0, 0, 0, 0, 0, 0, 0, 0, 0]
  type Host = s: seq<byte> | |s| == 16 witness ZERO_HOST

  datatype Runtime = Runtime(host: Host, boot: Host, pid: i32, ticks: u64)
  datatype Endpoint = Endpoint(runtime: Runtime, registration: u64)
  datatype TypeIdentity = TypeIdentity(typeId: u64, schemaId: u64, encodingId: u32, payloadSize: u32)

  const NO_RUNTIME := Runtime(ZERO_HOST, ZERO_HOST, 0, 0)
  const NO_ENDPOINT := Endpoint(NO_RUNTIME, 0)
  const NO_TYPE := TypeIdentity(0, 0, 0, 0)

  const MAX_CONTROL_PAYLOAD := 1024 * 1024
  const MAX_PARAMETER_WIRE := 16384

  predicate ValidHost(h: Host) { exists i :: 0 <= i < |h| && h[i] != 0 }

  predicate ValidRuntime(r: Runtime) {
    ValidHost(r.host) && ValidHost(r.boot) && r.pid > 0 && r.ticks != 0
  }

  predicate ValidEndpoint(e: Endpoint) { ValidRuntime(e.runtime) && e.registration != 0 }

  predicate ValidType(t: TypeIdentity) {
    t.typeId != 0 && t.schemaId != 0 && t.encodingId != 0 && 0 < t.payloadSize <= MAX_CONTROL_PAYLOAD
  }

  /** Non-empty, bounded, and free of control characters. */
  predicate Text(s: seq<byte>, maximum: nat) {
    0 < |s| <= maximum && forall i :: 0 <= i < |s| ==> s[i] >= 32 && s[i] != 127
  }
}
