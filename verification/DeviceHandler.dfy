/** The device object: relays, timers, periodic gates and the sensor pipeline, updated in place. */
module DeviceHandler {
  import opened Words
  import R = Relays
  import S = Sensor
  import E = Ema
  import G = Gate

  const RELAIS_CH1: int := 0
  const RELAIS_CH2: int := 1
  const LED_PIN: int := 2

  const BLINK_INTERVAL: nat := 250
  const DISPLAY_INTERVAL: nat := 1000

  class DeviceHandler {
    // relays: deadlines, flags and output pins, with the history of writes to the pins
    var ch1: word
    var ch2: word
    var relay1: bool
    var relay2: bool
    var pinCh1: bool
    var pinCh2: bool
    ghost var log: seq<R.Write>

    // interval gates
    var previousMillis: word
    var scanMillis: word
    var displayMillis: word
    var ledState: bool
    var ledPin: bool
    var displayEnabled: bool

    // sensor
    var minV: real
    var maxV: real
    var tankVolume: real
    var latestVoltage: real
    var scanCurrent: real
    var scanTemperature: real
    var scanWaterLevel: real
    var scanWaterVolume: real
    var adcTasks: nat  // ADC tasks created so far

    ghost function Relays(): R.Bank
      reads this
    {
      R.Bank(R.Channel(ch1, relay1, pinCh1), R.Channel(ch2, relay2, pinCh2), log)
    }

    ghost function Readings(): S.Readings
      reads this
    {
      S.Readings(latestVoltage, scanCurrent, scanTemperature, scanWaterLevel, scanWaterVolume)
    }

    ghost function Calibration(): S.Calibration
      requires minV != maxV
      reads this
    {
      S.Calibration(minV, maxV, tankVolume)
    }

    constructor ()
      ensures Relays() == R.BOOT && Readings() == S.BOOT
      ensures minV != maxV && Calibration() == S.Calibration(0.0, 2.4, 1000.0)
      ensures previousMillis == scanMillis == displayMillis == 0 && !ledState && !displayEnabled && adcTasks == 0
    {
      ch1, ch2 := NO_TIMER, NO_TIMER;
      relay1, relay2, pinCh1, pinCh2 := false, false, false, false;
      log := [];
      previousMillis, scanMillis, displayMillis := 0, 0, 0;
      ledState, ledPin, displayEnabled := false, false, false;
      minV, maxV, tankVolume := 0.0, 2.4, 1000.0;
      latestVoltage := 0.0;
      scanCurrent, scanTemperature, scanWaterLevel, scanWaterVolume := 0.0, 0.0, 0.0, 0.0;
      adcTasks := 0;
    }

    // ---------- relays ----------

    /** The pin levels; other pins are not followed. */
    method DigitalWrite(pin: int, state: bool)
      modifies `pinCh1, `pinCh2, `ledPin
      ensures pinCh1 == if pin == RELAIS_CH1 then state else old(pinCh1)
      ensures pinCh2 == if pin == RELAIS_CH2 then state else old(pinCh2)
      ensures ledPin == if pin == LED_PIN then state else old(ledPin)
    {
      if pin == RELAIS_CH1 {
        pinCh1 := state;
      } else if pin == RELAIS_CH2 {
        pinCh2 := state;
      } else if pin == LED_PIN {
        ledPin := state;
      }
    }

    /** For a number that is no relay's the pin stays unset, and any pin at all may be written. */
    method SetRelais(relais: int, state: bool, ghost writer: R.Writer)
      modifies `ch1, `ch2, `relay1, `relay2, `pinCh1, `pinCh2, `ledPin, `log
      ensures relais == 1 || relais == 2 ==>
                Relays() == R.SetRelais(old(Relays()), relais, state, writer) && ledPin == old(ledPin)
      ensures relais != 1 && relais != 2 ==> R.StrayWrite(old(Relays()), Relays(), state)
    {
      var pin: int := *;
      if relais == 1 {
        pin := RELAIS_CH1;
        ch1 := NO_TIMER;
        relay1 := state;
      } else if relais == 2 {
        pin := RELAIS_CH2;
        ch2 := NO_TIMER;
        relay2 := state;
      }
      DigitalWrite(pin, state);
      if relais == 1 || relais == 2 {
        log := log + [R.Write(relais, state, writer)];
      }
    }

    method SetRelaisDuration(channel: int32, duration: int32, millis: word)
      modifies `ch1, `ch2
      ensures Relays() == R.SetRelaisDuration(old(Relays()), channel, duration, millis)
    {
      if channel == 1 {
        ch1 := Wrap(millis + duration * 1000);
      } else if channel == 2 {
        ch2 := Wrap(millis + duration * 1000);
      }
    }

    method HandleRelais(currentMillis: word)
      modifies `ch1, `ch2, `relay1, `relay2, `pinCh1, `pinCh2, `ledPin, `log
      ensures ledPin == old(ledPin)
      ensures Relays() == R.HandleRelais(old(Relays()), currentMillis)
    {
      if ch1 != NO_TIMER && currentMillis >= ch1 {
        SetRelais(1, false, R.Timer);
      }
      if ch2 != NO_TIMER && currentMillis >= ch2 {
        SetRelais(2, false, R.Timer);
      }
    }

    method GetState(i: int) returns (on: bool)
      ensures i == 1 || i == 2 ==> on == R.Get(Relays(), i).relay
      ensures i != 1 && i != 2 ==> !on
    {
      if i == 1 {
        return relay1;
      } else if i == 2 {
        return relay2;
      }
      return false;
    }

    method GetDuration(i: int, millis: word) returns (left: int32)
      ensures left == if i == 1 || i == 2 then R.GetDuration(R.Get(Relays(), i).deadline, millis) else 0
    {
      var duration: int32 := 0;
      if i == 1 {
        duration := Signed(ch1);
      }
      if i == 2 {
        duration := Signed(ch2);
      }
      if duration > 0 && Wrap(duration - millis) > 0 {
        return Signed(Wrap(duration - millis));
      }
      return 0;
    }

    // ---------- interval gates ----------

    method HandleBlink(currentMillis: word)
      modifies `previousMillis, `ledState, `pinCh1, `pinCh2, `ledPin
      ensures pinCh1 == old(pinCh1) && pinCh2 == old(pinCh2)
      ensures if G.Due(old(previousMillis), currentMillis, BLINK_INTERVAL)
              then previousMillis == currentMillis && ledState == ledPin == !old(ledState)
              else previousMillis == old(previousMillis) && ledState == old(ledState) && ledPin == old(ledPin)
    {
      if Minus(currentMillis, previousMillis) >= BLINK_INTERVAL {
        previousMillis := currentMillis;
        ledState := !ledState;
        DigitalWrite(LED_PIN, ledState);
      }
    }

    /** Says whether the display is redrawn. */
    method HandleDisplay(currentMillis: word) returns (redraw: bool)
      modifies `displayMillis
      ensures redraw <==> displayEnabled && G.Due(old(displayMillis), currentMillis, DISPLAY_INTERVAL)
      ensures displayMillis == if redraw then currentMillis else old(displayMillis)
    {
      redraw := false;
      if displayEnabled {
        if Minus(currentMillis, displayMillis) >= DISPLAY_INTERVAL {
          displayMillis := currentMillis;
          redraw := true;
        }
      }
    }

    method HandleScan(currentMillis: word, temperature: real)
      requires minV != maxV
      modifies `scanMillis, `adcTasks, `scanCurrent, `scanTemperature, `scanWaterLevel, `scanWaterVolume
      ensures if G.Due(old(scanMillis), currentMillis, S.SCAN_INTERVAL)
              then scanMillis == currentMillis && adcTasks == old(adcTasks) + 1
                   && Readings() == S.Scan(Calibration(), old(Readings()), temperature)
              else scanMillis == old(scanMillis) && adcTasks == old(adcTasks) && Readings() == old(Readings())
    {
      if Minus(currentMillis, scanMillis) >= S.SCAN_INTERVAL {
        scanMillis := currentMillis;
        ScanSensors(temperature);
      }
    }

    // ---------- sensor ----------

    /** The readings are those taken while no ADC task writes in between; see module AdcTasks. */
    method ScanSensors(temperature: real)
      requires minV != maxV
      modifies `adcTasks, `scanCurrent, `scanTemperature, `scanWaterLevel, `scanWaterVolume
      ensures adcTasks == old(adcTasks) + 1
      ensures Readings() == S.Scan(Calibration(), old(Readings()), temperature)
    {
      adcTasks := adcTasks + 1;
      scanCurrent := S.Round2(latestVoltage / 120.0 * 1000.0);
      scanTemperature := S.Round2(temperature);
      var level := GetLevel();
      scanWaterLevel := S.Round2(level);
      var volume := GetVolume();
      scanWaterVolume := S.Round2(volume);
    }

    method GetLevel() returns (percent: real)
      requires minV != maxV
      ensures percent == S.Level(Calibration(), latestVoltage) && 0.0 <= percent <= 100.0
    {
      percent := (latestVoltage - minV) / (maxV - minV) * 100.0;
      if percent < 0.0 {
        percent := 0.0;
      }
      if percent > 100.0 {
        percent := 100.0;
      }
    }

    method GetVolume() returns (volume: real)
      requires minV != maxV
      ensures volume == S.Volume(Calibration(), latestVoltage)
    {
      var level := GetLevel();
      volume := tankVolume * (level / 100.0);
    }

    /** `samples` are the millivolt readings the converter delivers, one per turn of the loop. */
    method ReadVoltage(samples: S.Block) returns (voltage: real)
      modifies `latestVoltage
      ensures voltage == latestVoltage == E.Ema(old(latestVoltage), S.Average(samples))
    {
      var sum: word := 0;
      for i := 0 to |samples|
        invariant sum == S.SumWords(samples[..i])
        invariant latestVoltage == old(latestVoltage)
      {
        assert samples[..i + 1][..i] == samples[..i];
        sum := Wrap(sum + samples[i]);
      }
      assert samples[..|samples|] == samples;
      var average := sum as real / |samples| as real / 1000.0;
      voltage := latestVoltage * (1.0 - E.ALPHA) + average * E.ALPHA;
      latestVoltage := voltage;
    }
  }
}
