/** The Tasmota relay modules, reached over HTTP as `/cm?cmnd=<command>`.
  *
  * A module either answers a command with a JSON body or the request fails.
  * The answers are fixed in advance by the function `respond`, which gives the
  * reply to the command sent to a host at a given position of the log; every
  * command and every pause is appended to the log. */
module RelayBus {
  import opened JsValues
  import opened JsText

  datatype Command =
    | Status
    | PowerOn(relay: nat)
    | PowerOff(relay: nat)
    | PowerQuery(relay: nat)
    | PulseTimeQuery
    | SetPulseTime(relay: nat, value: nat)
    | Raw(text: string)

  /** The `cmnd` text of each command. */
  function CommandText(c: Command): string
  {
    match c
    case Status => "Status"
    case PowerOn(r) => "Power" + NatToDecimal(r) + " On"
    case PowerOff(r) => "Power" + NatToDecimal(r) + " Off"
    case PowerQuery(r) => "Power" + NatToDecimal(r)
    case PulseTimeQuery => "PulseTime"
    case SetPulseTime(r, v) => "PulseTime" + NatToDecimal(r) + " " + NatToDecimal(v)
    case Raw(text) => text
  }

  /** `Failed` carries the `status` the rejected request's error has (the
    * HTTP status of the module's answer, 0 when there was none) and
    * `String(error)`. */
  datatype Reply = Failed(status: nat, reason: string) | Answered(data: JsValue)

  datatype Event = Sent(host: string, command: Command) | Pause(ms: nat)

  type Responder = (string, Command, nat) -> Reply

  class Device {
    var log: seq<Event>
    const respond: Responder

    constructor (respond: Responder)
      ensures this.respond == respond && log == []
    {
      this.respond := respond;
      log := [];
    }

    /** `sendCommand(host, cmnd)`. */
    method Send(host: string, command: Command) returns (r: Reply)
      modifies this
      ensures log == old(log) + [Sent(host, command)]
      ensures r == respond(host, command, |old(log)|)
    {
      r := respond(host, command, |log|);
      log := log + [Sent(host, command)];
    }

    /** `await delay(ms)`. */
    method Wait(ms: nat)
      modifies this
      ensures log == old(log) + [Pause(ms)]
    {
      log := log + [Pause(ms)];
    }
  }
}
