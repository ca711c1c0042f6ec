/** The `relais` branch of the HTTP API: a JSON request acting on the device. */
module WebHandler {
  import opened Words
  import opened Options
  import opened Json
  import R = Relays
  import D = DeviceHandler

  /** `json[k]`: null for a missing key. */
  function Get(json: Json, k: string): Json {
    if json.Obj? && Has(json.members, k) then Find(json.members, k).value else Null
  }

  /** `is<int>()` */
  predicate IsInt(j: Json) {
    j.Int? && -0x8000_0000 <= j.n < 0x8000_0000
  }

  predicate WellFormed(json: Json) {
    IsInt(Get(json, "channel")) && Get(json, "state").Bool?
  }

  function Duration(json: Json): Option<int32> {
    if IsInt(Get(json, "duration")) then Some(Get(json, "duration").n) else None
  }

  /** The channel names a relay once it is an `int8_t`. */
  predicate KnownChannel(json: Json)
    requires WellFormed(json)
  {
    Int8(Get(json, "channel").n) == 1 || Int8(Get(json, "channel").n) == 2
  }

  /** The request has these members: an integer `channel`, a boolean `state`, and an integer `duration` or none. */
  predicate Asks(json: Json, channel: int32, state: bool, duration: Option<int32>) {
    && json.Obj? && Find(json.members, "channel") == Some(Int(channel)) && Find(json.members, "state") == Some(Bool(state))
    && match duration
       case Some(d) => Find(json.members, "duration") == Some(Int(d))
       case None => forall d: int32 :: Find(json.members, "duration") != Some(Int(d))
  }

  lemma AsksIffWellFormed(json: Json, channel: int32, state: bool, duration: Option<int32>)
    ensures Asks(json, channel, state, duration) <==>
            WellFormed(json) && channel == Get(json, "channel").n && state == Get(json, "state").b && duration == Duration(json)
  {
    if json.Obj? && Has(json.members, "duration") && IsInt(Get(json, "duration")) {
      var n: int32 := Get(json, "duration").n;
      assert Find(json.members, "duration") == Some(Int(n));
    }
  }

  /**
   * Says whether a response is sent: a request without a channel or a state is dropped silently. A request
   * for any other channel is answered like the rest, although it switches no relay and arms no timer.
   */
  method HandleRelais(device: D.DeviceHandler, json: Json, millis: word) returns (sent: bool)
    modifies device`ch1, device`ch2, device`relay1, device`relay2, device`pinCh1, device`pinCh2, device`ledPin, device`log
    ensures sent <==> exists channel, state, duration :: Asks(json, channel, state, duration)
    ensures forall channel: R.ApiChannel, state, duration :: Asks(json, channel, state, duration) ==>
              && device.Relays() == R.ApiRelais(old(device.Relays()), channel, state, duration, millis)
              && R.Commanded(old(device.Relays()), device.Relays(), channel, state, duration, millis)
    ensures sent && !KnownChannel(json) ==> R.StrayWrite(old(device.Relays()), device.Relays(), Get(json, "state").b)
    ensures !sent ==> device.Relays() == old(device.Relays())
  {
    ghost var before := device.Relays();
    forall c: int32, b: bool, d: Option<int32>
      ensures Asks(json, c, b, d) <==>
              WellFormed(json) && c == Get(json, "channel").n && b == Get(json, "state").b && d == Duration(json)
    {
      AsksIffWellFormed(json, c, b, d);
    }
    var channel, state, duration := Get(json, "channel"), Get(json, "state"), Get(json, "duration");
    if IsInt(channel) && state.Bool? {
      device.SetRelais(Int8(channel.n), state.b, R.Api);
      if IsInt(duration) {
        device.SetRelaisDuration(channel.n, duration.n, millis);
      }
      assert Asks(json, channel.n, state.b, Duration(json));
      if KnownChannel(json) {
        R.ApiRelaisCommands(before, channel.n, state.b, Duration(json), millis);
      }
      return true;
    }
    return false;
  }
}
