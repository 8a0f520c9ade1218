/**
 * The what-if sandbox (src/components/analysis/WhatIfSandbox.tsx): a local copy of the
 * vital signs that the clinician edits, a `changed` flag, and the two buttons that hand a
 * vitals record to the page's `onSimulate`.
 */
module WhatIfSandbox {
  import opened Wrappers
  import opened Medical

  /**
   * `Number(e.target.value)` for a number box. A number box hands over either the empty
   * string or the text of a number; `typed` is that number, `None` for an empty box, which
   * `Number` reads as 0.
   */
  function BoxNumber(typed: Option<real>): (x: real)
    ensures typed.None? ==> x == 0.0
    ensures typed.Some? ==> x == typed.value
  {
    typed.GetOr(0.0)
  }

  /** `value={vitals[key] || ''}`: an absent or zero reading shows an empty box. */
  function BoxShows(v: Option<real>): (shown: Option<real>)
    ensures shown.None? <==> v.None? || v.value == 0.0
    ensures shown.Some? ==> shown == v
  {
    if v.Some? && v.value != 0.0 then v else None
  }

  /** Clearing a box stores a zero reading, and the box then shows empty. */
  lemma ClearedBoxStoresZero(v: VitalSigns, key: VitalKey)
    ensures GetVital(SetVital(v, key, Some(BoxNumber(None))), key) == Some(0.0)
    ensures BoxShows(GetVital(SetVital(v, key, Some(BoxNumber(None))), key)).None?
  {
  }

  /** The warning sign beside SpO2: `(oxygenSaturation || 100) < 90`. */
  predicate SpO2Warning(v: VitalSigns)
    ensures SpO2Warning(v) ==> v.oxygenSaturation.Some? && v.oxygenSaturation.value < 90.0
  {
    (if v.oxygenSaturation.Some? && v.oxygenSaturation.value != 0.0 then v.oxygenSaturation.value else 100.0) < 90.0
  }

  /** The sign shows exactly for a present, non-zero reading under 90; a missing or zero reading never warns. */
  lemma SpO2WarningIff(v: VitalSigns)
    ensures SpO2Warning(v) <==> v.oxygenSaturation.Some? && v.oxygenSaturation.value != 0.0 && v.oxygenSaturation.value < 90.0
    ensures v.oxygenSaturation.None? || v.oxygenSaturation == Some(0.0) ==> !SpO2Warning(v)
  {
  }

  /** The component's state. */
  class Sandbox {
    var vitals: VitalSigns
    var changed: bool

    /** `useState(initialVitals)`, `useState(false)`: the prop is read once, at mount. */
    constructor (initialVitals: VitalSigns)
      ensures vitals == initialVitals && !changed
    {
      vitals := initialVitals;
      changed := false;
    }

    /** `handleChange(key, Number(text))`: exactly one reading replaced, and the sandbox marked changed. */
    method HandleChange(key: VitalKey, typed: Option<real>)
      modifies this
      ensures vitals == SetVital(old(vitals), key, Some(BoxNumber(typed)))
      ensures GetVital(vitals, key) == Some(BoxNumber(typed))
      ensures forall k :: k != key ==> GetVital(vitals, k) == GetVital(old(vitals), k)
      ensures changed
    {
      vitals := SetVital(vitals, key, Some(BoxNumber(typed)));
      changed := true;
    }

    /** Reset: back to the current `initialVitals` prop, unchanged, and that record simulated. */
    method Reset(initialVitals: VitalSigns) returns (simulated: VitalSigns)
      modifies this
      ensures vitals == initialVitals && !changed
      ensures simulated == initialVitals
    {
      vitals := initialVitals;
      changed := false;
      simulated := initialVitals;
    }

    /** The Run button is disabled while nothing changed and no simulation runs. */
    predicate RunDisabled(isSimulating: bool)
      reads this
      ensures isSimulating ==> !RunDisabled(isSimulating)
      ensures !isSimulating ==> (RunDisabled(isSimulating) <==> !changed)
    {
      !changed && !isSimulating
    }

    /** Run: hand the local vitals to `onSimulate`, unless the button is disabled. */
    method Run(isSimulating: bool) returns (simulated: Option<VitalSigns>)
      ensures simulated.None? <==> RunDisabled(isSimulating)
      ensures simulated.Some? ==> simulated.value == vitals
    {
      if !changed && !isSimulating {
        simulated := None;
      } else {
        simulated := Some(vitals);
      }
    }
  }

  /** After any edit, Run hands over the edited record with that one reading replaced. */
  method EditThenRun(s: Sandbox, key: VitalKey, typed: Option<real>) returns (simulated: Option<VitalSigns>)
    modifies s
    ensures simulated.Some?
    ensures GetVital(simulated.value, key) == Some(BoxNumber(typed))
    ensures forall k :: k != key ==> GetVital(simulated.value, k) == GetVital(old(s.vitals), k)
  {
    s.HandleChange(key, typed);
    simulated := s.Run(false);
  }
}
