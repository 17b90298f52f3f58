/** The moon phase classifier `mapMoonPhaseToType` (components/app-page.tsx:16-26):
    a lunation fraction in [0, 1] to one of eight named phases. */
module MoonPhase {

  datatype MoonPhaseType =
    | New | WaxingCrescent | FirstQuarter | WaxingGibbous
    | Full | WaningGibbous | LastQuarter | WaningCrescent

  /** The quarter points are hit only exactly, the open intervals between them name the
      crescent and gibbous phases, and 0, 1 and everything outside (0, 1) is `New`. */
  function MapMoonPhaseToType(phaseValue: real): (r: MoonPhaseType)
    ensures r == New <==> phaseValue <= 0.0 || phaseValue >= 1.0
    ensures r == WaxingCrescent <==> 0.0 < phaseValue < 0.25
    ensures r == FirstQuarter <==> phaseValue == 0.25
    ensures r == WaxingGibbous <==> 0.25 < phaseValue < 0.5
    ensures r == Full <==> phaseValue == 0.5
    ensures r == WaningGibbous <==> 0.5 < phaseValue < 0.75
    ensures r == LastQuarter <==> phaseValue == 0.75
    ensures r == WaningCrescent <==> 0.75 < phaseValue < 1.0
  {
    if phaseValue == 0.0 || phaseValue == 1.0 then New
    else if 0.0 < phaseValue < 0.25 then WaxingCrescent
    else if phaseValue == 0.25 then FirstQuarter
    else if 0.25 < phaseValue < 0.5 then WaxingGibbous
    else if phaseValue == 0.5 then Full
    else if 0.5 < phaseValue < 0.75 then WaningGibbous
    else if phaseValue == 0.75 then LastQuarter
    else if 0.75 < phaseValue < 1.0 then WaningCrescent
    else New
  }
}
