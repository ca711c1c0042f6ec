/** What the automation does to its own flags and, through the device, to the relays. */
module Automation {
  import opened Words
  import opened Relays
  import L = Latch
  import G = Gate

  const AUTO_INTERVAL: nat := 1000
  const PUMP_FILL: int := 1
  const PUMP_EMPTY: int := 2

  datatype Config = Config(mode: int, maxL: real, minL: real, fillL: real)

  /** The flags `fillM` and `pumpM`, the gate's timestamp, and the relays they act on. */
  datatype Auto = Auto(fillM: bool, pumpM: bool, millis: word, relays: Bank)

  const BOOT := Auto(false, false, 0, Relays.BOOT)

  function Limits(cfg: Config): L.Limits {
    L.Limits(cfg.maxL, cfg.fillL)
  }

  function SetPump(a: Auto, cond: bool): Auto {
    a.(relays := SetRelais(a.relays, PUMP_EMPTY, cond, Automation), pumpM := cond)
  }

  function SetFill(a: Auto, cond: bool): Auto {
    a.(relays := SetRelais(a.relays, PUMP_FILL, cond, Automation), fillM := cond)
  }

  function HandlePump(cfg: Config, a: Auto, level: real): Auto {
    SetPump(a, level > cfg.minL)
  }

  function HandleFill(cfg: Config, a: Auto, level: real): Auto {
    if level < cfg.maxL then
      if !a.fillM && level <= cfg.fillL then SetFill(a, true) else a
    else SetFill(a, false)
  }

  /** The body of the loop behind its gate. */
  function Tick(cfg: Config, a: Auto, level: real): Auto {
    if cfg.mode == 1 then HandlePump(cfg, HandleFill(cfg, a, level), level)
    else if cfg.mode == 2 then HandleFill(cfg, a, level)
    else if a.fillM || a.pumpM then SetFill(SetPump(a, false), false)
    else a
  }

  predicate Ticks(cfg: Config, a: Auto, now: word) {
    cfg.mode != 0 && G.Due(a.millis, now, AUTO_INTERVAL)
  }

  function Loop(cfg: Config, a: Auto, level: real, now: word): Auto {
    if Ticks(cfg, a, now) then Tick(cfg, a.(millis := now), level) else a
  }

  /** One tick moves the fill flag as the latch machine does, and writes relay 1 only when it decides. */
  lemma TickIsLatchStep(cfg: Config, a: Auto, level: real)
    requires cfg.mode == 1 || cfg.mode == 2
    ensures Tick(cfg, a, level).fillM == L.Next(Limits(cfg), a.fillM, level)
    ensures L.IsStop(Limits(cfg), level) || (!a.fillM && L.IsStart(Limits(cfg), level))
            ==> Tick(cfg, a, level).relays.c1 == Channel(NO_TIMER, Tick(cfg, a, level).fillM, Tick(cfg, a, level).fillM)
    ensures !(L.IsStop(Limits(cfg), level) || (!a.fillM && L.IsStart(Limits(cfg), level)))
            ==> Tick(cfg, a, level).relays.c1 == a.relays.c1
  {}
}
