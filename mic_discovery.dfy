/**
 * Start-up discovery of the microphone: the speech-recognition library and the
 * wake-word recorder each enumerate the audio devices by name, and the script
 * picks, in each list, the first device whose name contains the configured
 * substring. Either enumeration may raise; the exception is swallowed and that
 * list counts as having no match.
 */
module MicDiscovery {
  import opened Wrappers
  import opened PyStr

  /** The index pair used when either list has no matching device name. */
  const FALLBACK_SR_INDEX: nat := 3
  const FALLBACK_PV_INDEX: nat := 1

  /** `i` is the smallest index whose name contains `target`. */
  ghost predicate IsFirstMatch(names: seq<string>, target: string, i: nat) {
    && i < |names|
    && Contains(names[i], target)
    && forall j :: 0 <= j < i ==> !Contains(names[j], target)
  }

  /** The enumeration succeeded and some listed name contains `target`. */
  ghost predicate HasMatch(names: Option<seq<string>>, target: string) {
    names.Some? && exists i :: 0 <= i < |names.value| && Contains(names.value[i], target)
  }

  /** The `for i, name in enumerate(...)` scan with its `break` on the first match. */
  method FindFirstMatch(names: seq<string>, target: string) returns (index: Option<nat>)
    ensures index.Some? ==> IsFirstMatch(names, target, index.value)
    ensures index.None? <==> forall j :: 0 <= j < |names| ==> !Contains(names[j], target)
  {
    index := None;
    for i := 0 to |names|
      invariant index == None
      invariant forall j :: 0 <= j < i ==> !Contains(names[j], target)
    {
      if Contains(names[i], target) {
        index := Some(i);
        break;
      }
    }
  }

  /**
   * The pair (speech-recognition index, wake-word index). `srNames` and `pvNames`
   * are the two device enumerations, None when listing the devices raised.
   */
  method GetMicIndices(srNames: Option<seq<string>>, pvNames: Option<seq<string>>, target: string)
    returns (srIndex: nat, pvIndex: nat)
    ensures !(HasMatch(srNames, target) && HasMatch(pvNames, target)) ==>
              srIndex == FALLBACK_SR_INDEX && pvIndex == FALLBACK_PV_INDEX
    ensures HasMatch(srNames, target) && HasMatch(pvNames, target) ==>
              IsFirstMatch(srNames.value, target, srIndex) && IsFirstMatch(pvNames.value, target, pvIndex)
  {
    var sr: Option<nat> := None;
    var pv: Option<nat> := None;
    if srNames.Some? {
      sr := FindFirstMatch(srNames.value, target);
    }
    if pvNames.Some? {
      pv := FindFirstMatch(pvNames.value, target);
    }
    if sr.None? || pv.None? {
      return FALLBACK_SR_INDEX, FALLBACK_PV_INDEX;
    }
    return sr.value, pv.value;
  }
}
