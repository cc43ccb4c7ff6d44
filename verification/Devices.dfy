/**
 internal/device/registry.go: devices and the registry that finds them by name.
 */
module Devices {
  import opened Bytes
  import opened Net

  class Device {
    const id: bytes
    const conn: Conn
    var inSession: bool
    var sessionId: string

    constructor (id: bytes, conn: Conn)
      ensures this.id == id && this.conn == conn && !inSession && sessionId == ""
    {
      this.id, this.conn, this.inSession, this.sessionId := id, conn, false, "";
    }

    method SetSession(id: string)
      modifies this
      ensures inSession && sessionId == id
    {
      inSession, sessionId := true, id;
    }

    method ClearSession()
      modifies this
      ensures !inSession && sessionId == ""
    {
      inSession, sessionId := false, "";
    }

    method IsInSession() returns (busy: bool)
      ensures busy == inSession
    {
      busy := inSession;
    }
  }

  class Registry {
    var devices: map<bytes, Device>

    constructor ()
      ensures devices == map[]
    {
      devices := map[];
    }

    /** A device replaces whatever was registered under its name. */
    method Register(device: Device)
      modifies this
      ensures devices == old(devices)[device.id := device]
    {
      devices := devices[device.id := device];
    }

    /** Removal is by name, whichever device is there. */
    method Unregister(id: bytes)
      modifies this
      ensures devices == old(devices) - {id}
    {
      devices := devices - {id};
    }

    method Get(id: bytes) returns (device: Option<Device>)
      ensures device == if id in devices then Some(devices[id]) else None
    {
      device := if id in devices then Some(devices[id]) else None;
    }
  }
}
