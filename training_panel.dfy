/**
  The training-settings panel: check boxes for "use all data" and "use data
  augmentation", a custom data size, and the augmentation settings chosen in a
  child panel. Every change of the augmentation settings, and every press of
  Enter, emits one training-settings record derived from these fields.
 */
module TrainingPanel {
  import opened Wrappers

  /** One augmentation technique: whether it is on, and its tuning values (carried unread). */
  datatype Technique = Technique(enabled: bool, parameters: map<string, real>)

  /** The augmentation settings the child panel emits. */
  datatype AugmentationSettings = AugmentationSettings(noise: Technique, rotate: Technique, squeeze: Technique)

  /** The record the panel emits: the training-set size and, optionally, the augmentation. */
  datatype TrainingSettings = TrainingSettings(size: int, augment: Option<AugmentationSettings>)

  /** At least one of noise, rotate and squeeze is switched on. */
  predicate AnyTechniqueEnabled(a: AugmentationSettings)
  {
    a.noise.enabled || a.rotate.enabled || a.squeeze.enabled
  }

  /**
    The augmentation to emit: the stored settings when augmentation is on and
    the settings switch on at least one technique, and nothing otherwise.
   */
  function Augment(useAug: bool, augSettings: Option<AugmentationSettings>): (r: Option<AugmentationSettings>)
    ensures !useAug ==> r == None
    ensures augSettings.None? ==> r == None
    ensures augSettings.Some? && !AnyTechniqueEnabled(augSettings.value) ==> r == None
    ensures useAug && augSettings.Some? && AnyTechniqueEnabled(augSettings.value) ==> r == augSettings
  {
    if useAug then
      match augSettings
      case Some(a) => if AnyTechniqueEnabled(a) then augSettings else None
      case None => None
    else
      None
  }

  class Panel {
    /** The largest data size available (an input of the component). */
    var max: int
    var useAll: bool
    var useAug: bool
    var augSettings: Option<AugmentationSettings>
    var dataSize: int

    /** A fresh panel: all data, no augmentation, no settings yet, size 0. */
    constructor(max: int)
      ensures this.max == max
      ensures useAll && !useAug && augSettings == None && dataSize == 0
    {
      this.max := max;
      useAll := true;
      useAug := false;
      augSettings := None;
      dataSize := 0;
    }

    /** The record the panel would emit now: `max` or the chosen size, and the effective augmentation. */
    function Current(): (s: TrainingSettings)
      reads this
      ensures useAll ==> s.size == max
      ensures !useAll ==> s.size == dataSize
      ensures s.augment.Some? <==> useAug && augSettings.Some? && AnyTechniqueEnabled(augSettings.value)
      ensures s.augment.Some? ==> s.augment == augSettings
    {
      TrainingSettings(if useAll then max else dataSize, Augment(useAug, augSettings))
    }

    /** `onUseAll`: record the check box; checking it resets the chosen size to the maximum. */
    method OnUseAll(checked: bool)
      modifies this`useAll, this`dataSize
      ensures useAll == checked
      ensures dataSize == if checked then max else old(dataSize)
    {
      useAll := checked;
      if checked {
        dataSize := max;
      }
    }

    /** `onEnter`: emit the record derived from the current fields. */
    method OnEnter() returns (emitted: TrainingSettings)
      ensures emitted == Current()
      ensures useAll ==> emitted.size == max
      ensures !useAll ==> emitted.size == dataSize
      ensures emitted.augment.Some? <==> useAug && augSettings.Some? && AnyTechniqueEnabled(augSettings.value)
      ensures emitted.augment.Some? ==> emitted.augment == augSettings
    {
      emitted := Current();
    }

    /** `onAugSettings`: store the child panel's settings, then emit exactly one record. */
    method OnAugSettings(e: AugmentationSettings) returns (emitted: TrainingSettings)
      modifies this`augSettings
      ensures augSettings == Some(e)
      ensures emitted == Current()
      ensures emitted.augment == if useAug && AnyTechniqueEnabled(e) then Some(e) else None
    {
      augSettings := Some(e);
      emitted := OnEnter();
    }
  }

  /**
    Checking "use all" and then unchecking it leaves the chosen size at the
    maximum, so the next record still asks for all the data.
   */
  method UseAllThenCustomKeepsMax(panel: Panel) returns (emitted: TrainingSettings)
    modifies panel`useAll, panel`dataSize
    ensures emitted.size == panel.max
    ensures !panel.useAll && panel.dataSize == panel.max
  {
    panel.OnUseAll(true);
    panel.OnUseAll(false);
    emitted := panel.OnEnter();
  }
}
