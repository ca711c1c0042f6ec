/** The automation object: hysteresis flags updated in place, relays driven through the device. */
module AutomationHandler {
  import opened Words
  import R = Relays
  import A = Automation
  import D = DeviceHandler

  class AutomationHandler {
    const device: D.DeviceHandler
    var mode: int
    var maxL: real
    var minL: real
    var fillL: real
    var fillM: bool
    var pumpM: bool
    var autoMillis: word

    ghost function Config(): A.Config
      reads this
    {
      A.Config(mode, maxL, minL, fillL)
    }

    ghost function View(): A.Auto
      reads this, device
    {
      A.Auto(fillM, pumpM, autoMillis, device.Relays())
    }

    constructor (device: D.DeviceHandler, cfg: A.Config)
      ensures this.device == device && Config() == cfg
      ensures View() == A.Auto(false, false, 0, device.Relays())
    {
      this.device := device;
      mode, maxL, minL, fillL := cfg.mode, cfg.maxL, cfg.minL, cfg.fillL;
      fillM, pumpM, autoMillis := false, false, 0;
    }

    method SetPump(cond: bool)
      modifies `pumpM
      modifies device`ch1, device`ch2, device`relay1, device`relay2, device`pinCh1, device`pinCh2, device`ledPin, device`log
      ensures View() == A.SetPump(old(View()), cond)
    {
      device.SetRelais(A.PUMP_EMPTY, cond, R.Automation);
      pumpM := cond;
    }

    method HandlePump()
      modifies `pumpM
      modifies device`ch1, device`ch2, device`relay1, device`relay2, device`pinCh1, device`pinCh2, device`ledPin, device`log
      ensures View() == A.HandlePump(Config(), old(View()), device.scanWaterLevel)
    {
      if device.scanWaterLevel > minL {
        SetPump(true);
      } else {
        SetPump(false);
      }
    }

    method SetFill(cond: bool)
      modifies `fillM
      modifies device`ch1, device`ch2, device`relay1, device`relay2, device`pinCh1, device`pinCh2, device`ledPin, device`log
      ensures View() == A.SetFill(old(View()), cond)
    {
      device.SetRelais(A.PUMP_FILL, cond, R.Automation);
      fillM := cond;
    }

    method HandleFill()
      modifies `fillM
      modifies device`ch1, device`ch2, device`relay1, device`relay2, device`pinCh1, device`pinCh2, device`ledPin, device`log
      ensures View() == A.HandleFill(Config(), old(View()), device.scanWaterLevel)
    {
      if device.scanWaterLevel < maxL {
        if fillM == false && device.scanWaterLevel <= fillL {
          SetFill(true);
        }
      } else {
        SetFill(false);
      }
    }

    method Loop(currentMillis: word)
      modifies `fillM, `pumpM, `autoMillis
      modifies device`ch1, device`ch2, device`relay1, device`relay2, device`pinCh1, device`pinCh2, device`ledPin, device`log
      ensures View() == A.Loop(Config(), old(View()), device.scanWaterLevel, currentMillis)
    {
      if mode != 0 {
        if Minus(currentMillis, autoMillis) >= A.AUTO_INTERVAL {
          autoMillis := currentMillis;
          if mode == 1 {
            HandleFill();
            HandlePump();
          } else if mode == 2 {
            HandleFill();
          } else if fillM || pumpM {
            SetPump(false);
            SetFill(false);
          }
        }
      }
    }
  }
}
