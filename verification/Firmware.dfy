/** The device and the automation objects together, and the event machine they carry out. */
module Firmware {
  import opened Words
  import opened Options
  import R = Relays
  import A = Automation
  import S = Sensor
  import G = Gate
  import D = DeviceHandler
  import H = AutomationHandler
  import C = Controller

  class Firmware {
    const device: D.DeviceHandler
    const automation: H.AutomationHandler
    ghost var clock: nat        // unbounded; the handlers see its low 32 bits
    ghost var hist: C.History

    /** The objects belong together, and their calibration distinguishes an empty from a full tank. */
    ghost predicate Valid()
      reads this, device, automation
    {
      automation.device == device && device.minV != device.maxV
    }

    ghost function Plant(): C.Plant
      requires Valid()
      reads this, device, automation
    {
      C.Plant(automation.Config(), device.Calibration())
    }

    ghost function State(): C.State
      requires Valid()
      reads this, device, automation
    {
      C.State(clock, automation.View(), device.Readings(), device.scanMillis, hist)
    }

    constructor (cfg: A.Config)
      ensures Valid() && fresh(device) && fresh(automation)
      ensures State() == C.BOOT
      ensures Plant() == C.Plant(cfg, S.Calibration(0.0, 2.4, 1000.0))
    {
      var d := new D.DeviceHandler();
      device := d;
      automation := new H.AutomationHandler(d, cfg);
      clock := 0;
      hist := C.BOOT.hist;
    }

    method OnApi(channel: R.ApiChannel, state: bool, duration: Option<int32>, millis: word)
      requires Valid() && millis == Wrap(clock)
      modifies device`ch1, device`ch2, device`relay1, device`relay2, device`pinCh1, device`pinCh2, device`ledPin, device`log
      ensures State() == C.Step(Plant(), old(State()), C.Api(channel, state, duration))
    {
      device.SetRelais(Int8(channel), state, R.Api);
      if duration.Some? {
        device.SetRelaisDuration(channel, duration.value, millis);
      }
    }

    method OnPollRelais(millis: word)
      requires Valid() && millis == Wrap(clock)
      modifies `hist
      modifies device`ch1, device`ch2, device`relay1, device`relay2, device`pinCh1, device`pinCh2, device`ledPin, device`log
      ensures State() == C.Step(Plant(), old(State()), C.PollRelais)
    {
      device.HandleRelais(millis);
      hist := hist.(relaisPolled := clock);
    }

    method OnBlock(samples: S.Block)
      requires Valid()
      modifies `hist, device`latestVoltage
      ensures State() == C.Step(Plant(), old(State()), C.AdcUpdate(samples))
    {
      var voltage := device.ReadVoltage(samples);
      hist := hist.(inputs := hist.inputs + [S.Average(samples)]);
    }

    method OnPollScan(temperature: real, millis: word)
      requires Valid() && millis == Wrap(clock)
      modifies `hist, device`scanMillis, device`adcTasks
      modifies device`scanCurrent, device`scanTemperature, device`scanWaterLevel, device`scanWaterVolume
      ensures State() == C.Step(Plant(), old(State()), C.PollScan(temperature))
    {
      ghost var after := C.Scanned(Plant(), State(), temperature).hist;
      device.HandleScan(millis, temperature);
      hist := after;
    }

    method OnPollAuto(millis: word)
      requires Valid() && millis == Wrap(clock)
      modifies `hist, automation`fillM, automation`pumpM, automation`autoMillis
      modifies device`ch1, device`ch2, device`relay1, device`relay2, device`pinCh1, device`pinCh2, device`ledPin, device`log
      ensures State() == C.Step(Plant(), old(State()), C.PollAuto)
    {
      ghost var after := C.Automated(Plant(), State()).hist;
      automation.Loop(millis);
      hist := after;
    }

    /** The code that runs for one event does what the machine's step says. */
    method Handle(e: C.Event, millis: word)
      requires Valid() && millis == Wrap(clock)
      modifies this, device, automation
      ensures Valid() && Plant() == old(Plant())
      ensures State() == C.Step(Plant(), old(State()), e)
    {
      match e {
        case Advance(ms) => clock := clock + ms;
        case Api(channel, state, duration) => OnApi(channel, state, duration, millis);
        case PollRelais => OnPollRelais(millis);
        case AdcUpdate(samples) => OnBlock(samples);
        case PollScan(temperature) => OnPollScan(temperature, millis);
        case PollAuto => OnPollAuto(millis);
      }
    }

    /** Any sequence of events, `millis()` being read before each: the objects end where the machine's run ends. */
    method Execute(es: seq<C.Event>, clockReadings: seq<word>)
      requires Valid() && |clockReadings| == |es|
      requires forall i :: 0 <= i < |es| ==> clockReadings[i] == C.Millis(C.Run(Plant(), State(), es[..i]))
      modifies this, device, automation
      ensures Valid() && Plant() == old(Plant())
      ensures State() == C.Run(Plant(), old(State()), es)
    {
      ghost var plant, before := Plant(), State();
      for i := 0 to |es|
        invariant Valid() && Plant() == plant
        invariant State() == C.Run(plant, before, es[..i])
      {
        assert es[..i + 1][..i] == es[..i];
        Handle(es[i], clockReadings[i]);
      }
      assert es[..|es|] == es;
    }
  }
}
