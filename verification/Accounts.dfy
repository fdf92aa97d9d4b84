/** What the messages of a connection say about it, read off the list of them. */
module Accounts {
  import opened Bytes
  import opened Message
  import opened Events

  /** The number of the last shot. */
  function LastShot(heard: seq<Message>): Option<int> {
    if heard == [] then None
    else if heard[|heard| - 1].kind == Shot then Some(heard[|heard| - 1].shotNumber)
    else LastShot(heard[..|heard| - 1])
  }

  function Shots(heard: seq<Message>): nat {
    if heard == [] then 0 else Shots(heard[..|heard| - 1]) + if heard[|heard| - 1].kind == Shot then 1 else 0
  }

  /** The first device id that is not empty. */
  function FirstName(heard: seq<Message>): Option<seq<Byte>> {
    if heard == [] then None
    else if FirstName(heard[..|heard| - 1]).Some? then FirstName(heard[..|heard| - 1])
    else if heard[|heard| - 1].deviceId != [] then Some(heard[|heard| - 1].deviceId)
    else None
  }

  /** How many messages gave a device id that was not the first one. */
  function OtherNames(heard: seq<Message>): nat {
    if heard == [] then 0
    else
      var m, before := heard[|heard| - 1], heard[..|heard| - 1];
      OtherNames(before) + if m.deviceId != [] && FirstName(before) !in {None, Some(m.deviceId)} then 1 else 0
  }

  /** The last value given for an option, false to begin with. */
  function Newest(heard: seq<Message>, f: OptionField): bool {
    if heard == [] then false
    else if f in heard[|heard| - 1].options then heard[|heard| - 1].options[f]
    else Newest(heard[..|heard| - 1], f)
  }

  /** A shot with the number of the shot before it, the one number that stands for none excepted. */
  predicate Repeats(heard: seq<Message>, m: Message) {
    m.kind == Shot && LastShot(heard) == Some(m.shotNumber) && m.shotNumber != NO_SHOT
  }

  /** The messages as they are reported: as they were decoded, with repeated shot numbers noted. */
  function Reported(heard: seq<Message>): (r: seq<Message>)
    ensures |r| == |heard|
  {
    if heard == [] then []
    else
      var m, before := heard[|heard| - 1], heard[..|heard| - 1];
      Reported(before) + [if Repeats(before, m) then m.(flags := m.flags + {ShotNumberRepeated}) else m]
  }

  /** What a connection's information says is what its messages and its errors say. */
  predicate InfoTold(info: Info, heard: seq<Message>, errors: nat) {
    && CountsTold(info, heard, errors) && NameTold(info, heard) && StateTold(info, heard)
  }

  predicate CountsTold(info: Info, heard: seq<Message>, errors: nat) {
    && info.messages == |heard| % WORD && info.shots == Shots(heard) % WORD
    && info.lastShot == (if LastShot(heard).Some? then LastShot(heard).value else NO_SHOT)
    && info.protocolErrors == errors % WORD
  }

  predicate NameTold(info: Info, heard: seq<Message>) {
    && (info.identified <==> FirstName(heard).Some?)
    && (info.identified ==> info.deviceId == FirstName(heard).value)
  }

  predicate StateTold(info: Info, heard: seq<Message>) {
    && info.ready == Newest(heard, LaunchMonitorIsReady)
    && info.ballDetected == Newest(heard, LaunchMonitorBallDetected)
  }
}
