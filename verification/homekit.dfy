/** The HomeKit characteristic values the adapter reads and writes, with the
    numeric codes the host uses for them (the HAP-NodeJS constants
    `Characteristic.Active.ACTIVE` and so on; HAP-NodeJS is not part of this
    model, only these numbers are). */
module Homekit {

  datatype Power = Inactive | Active {
    function Code(): (c: int)
      ensures c == 0 <==> this == Inactive
    {
      if this == Inactive then 0 else 1
    }
  }

  datatype PurifierState = PurifierInactive | PurifierIdle | PurifyingAir {
    function Code(): int {
      match this
      case PurifierInactive => 0
      case PurifierIdle => 1
      case PurifyingAir => 2
    }
  }

  datatype TargetState = Manual | Auto {
    function Code(): (c: int)
      ensures c == 0 <==> this == Manual
    {
      if this == Manual then 0 else 1
    }
  }

  datatype LockControls = LockDisabled | LockEnabled {
    function Code(): (c: int)
      ensures c == 0 <==> this == LockDisabled
    {
      if this == LockDisabled then 0 else 1
    }
  }

  /** Ordered from best to worst; `Unknown` is never produced by the adapter. */
  datatype AirQuality = Unknown | Excellent | Good | Fair | Inferior | Poor {
    function Code(): int {
      match this
      case Unknown => 0
      case Excellent => 1
      case Good => 2
      case Fair => 3
      case Inferior => 4
      case Poor => 5
    }
  }
}
