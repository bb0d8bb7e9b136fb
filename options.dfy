/** The option controls under the fish table: five visibility checkboxes and the
    release patch selector, with the saves and recomputes they trigger. */
module FishOptions {

  newtype byte = x: int | 0 <= x < 256

  /** The configuration fields the controls write. */
  datatype Config = Config(
    showAlreadyCaught: bool,
    showAlwaysUp: bool,
    showBigFish: bool,
    showSmallFish: bool,
    showSpearFish: bool,
    showFishFromPatch: byte)

  /** A patch selector of the fish cache, identified by its position among all
      selectors the cache offers. */
  type SelectorId = nat

  /** Calls into the outside world, in order: persisting the configuration, and
      the cache recomputing its relevant fish from the configuration and selector
      it sees at that moment. */
  datatype Effect = Save(saved: Config) | Recompute(config: Config, selector: SelectorId)

  datatype Toggle = AlreadyCaught | AlwaysUp | BigFish | SmallFish | SpearFish

  function Flag(c: Config, t: Toggle): bool
  {
    match t
    case AlreadyCaught => c.showAlreadyCaught
    case AlwaysUp => c.showAlwaysUp
    case BigFish => c.showBigFish
    case SmallFish => c.showSmallFish
    case SpearFish => c.showSpearFish
  }

  /** Writing one flag leaves the other four flags and the patch alone. */
  function SetFlag(c: Config, t: Toggle, b: bool): (r: Config)
    ensures Flag(r, t) == b
    ensures forall u :: u != t ==> Flag(r, u) == Flag(c, u)
    ensures r.showFishFromPatch == c.showFishFromPatch
  {
    match t
    case AlreadyCaught => c.(showAlreadyCaught := b)
    case AlwaysUp => c.(showAlwaysUp := b)
    case BigFish => c.(showBigFish := b)
    case SmallFish => c.(showSmallFish := b)
    case SpearFish => c.(showSpearFish := b)
  }

  /** Number of effects of the given kind. */
  function Count(effects: seq<Effect>, saves: bool): nat
  {
    if effects == [] then 0
    else (if effects[0].Save? == saves then 1 else 0) + Count(effects[1..], saves)
  }

  function Saves(effects: seq<Effect>): nat { Count(effects, true) }

  function Recomputes(effects: seq<Effect>): nat { Count(effects, false) }

  lemma {:induction false} CountAppend(a: seq<Effect>, b: seq<Effect>, saves: bool)
    ensures Count(a + b, saves) == Count(a, saves) + Count(b, saves)
  {
    if a == [] {
      assert a + b == b;
    } else {
      assert (a + b)[0] == a[0];
      assert (a + b)[1..] == a[1..] + b;
      CountAppend(a[1..], b, saves);
    }
  }

  /** The state of the controls as the model sees it: the configuration, the
      cache's current selector, and every effect so far. */
  datatype Options = Options(config: Config, selector: SelectorId, effects: seq<Effect>)

  /** Checking or unchecking box `t`: the callback the box is given. Every box
      except "Show Already Caught" changes which fish are relevant and so makes the
      cache recompute. The callback itself does not save. */
  function Checkbox(s: Options, t: Toggle, b: bool): (r: Options)
    ensures r.config == SetFlag(s.config, t, b)
    ensures r.selector == s.selector
    ensures |r.effects| == |s.effects| + (if t == AlreadyCaught then 0 else 1)
    ensures r.effects[..|s.effects|] == s.effects
    ensures t != AlreadyCaught ==> r.effects[|s.effects|] == Recompute(r.config, s.selector)
  {
    var config := SetFlag(s.config, t, b);
    if t == AlreadyCaught then s.(config := config)
    else Options(config, s.selector, s.effects + [Recompute(config, s.selector)])
  }

  /** A checkbox callback writes only its own flag and keeps every earlier effect;
      it adds no save, and adds no recompute for "Show Already Caught" and exactly
      one, seeing the new flag, for each of the other four boxes. */
  lemma CheckboxEffects(s: Options, t: Toggle, b: bool)
    ensures var r := Checkbox(s, t, b);
      Flag(r.config, t) == b
      && (forall u :: u != t ==> Flag(r.config, u) == Flag(s.config, u))
      && r.config.showFishFromPatch == s.config.showFishFromPatch
      && r.selector == s.selector
      && r.effects[..|s.effects|] == s.effects
      && |r.effects| == |s.effects| + (if t == AlreadyCaught then 0 else 1)
      && Saves(r.effects) == Saves(s.effects)
      && Recomputes(r.effects) == Recomputes(s.effects) + (if t == AlreadyCaught then 0 else 1)
      && (t != AlreadyCaught ==> r.effects[|r.effects| - 1] == Recompute(r.config, s.selector))
  {
    var r := Checkbox(s, t, b);
    if t != AlreadyCaught {
      var e := [Recompute(r.config, s.selector)];
      CountAppend(s.effects, e, true);
      CountAppend(s.effects, e, false);
      assert Count(e, true) == 0 && Count(e, false) == 1 by {
        assert e[1..] == [];
      }
    }
  }

  /** Whether the combo reports a selection that differs from the stored patch.
      The stored byte is compared with the index as an integer. */
  predicate PatchChanged(s: Options, clicked: bool, tmp: int)
  {
    clicked && tmp != s.config.showFishFromPatch as int
  }

  /** The new state, and whether looking up the selector threw because the cache
      offers fewer selectors than the combo offers patches. */
  datatype ComboOutcome = ComboOutcome(state: Options, threw: bool)

  /** Choosing entry `tmp` of the release patch combo, which offers `patchCount`
      entries. On a change the index is stored as a byte, the selector is rebound,
      then the configuration is saved and the cache recomputes. A missing selector
      throws after the byte is stored and before anything is saved. */
  function PatchCombo(s: Options, patchCount: nat, selectors: seq<SelectorId>, clicked: bool, tmp: int): (r: ComboOutcome)
    requires PatchChanged(s, clicked, tmp) ==> 0 <= tmp < patchCount
    ensures !PatchChanged(s, clicked, tmp) ==> r == ComboOutcome(s, false)
    ensures PatchChanged(s, clicked, tmp) ==> (r.state.config.showFishFromPatch as int == tmp % 256
      && (forall t :: Flag(r.state.config, t) == Flag(s.config, t)))
    ensures r.threw <==> PatchChanged(s, clicked, tmp) && tmp >= |selectors|
    ensures r.threw ==> r.state.effects == s.effects && r.state.selector == s.selector
    ensures |s.effects| <= |r.state.effects| && r.state.effects[..|s.effects|] == s.effects
  {
    if PatchChanged(s, clicked, tmp) then
      var config := s.config.(showFishFromPatch := (tmp % 256) as byte);
      if tmp < |selectors| then
        var selector := selectors[tmp];
        ComboOutcome(Options(config, selector, s.effects + [Save(config), Recompute(config, selector)]), false)
      else
        ComboOutcome(s.(config := config), true)
    else
      ComboOutcome(s, false)
  }

  /** Choosing the entry already stored, or not choosing at all, changes nothing. */
  lemma PatchComboUnchanged(s: Options, patchCount: nat, selectors: seq<SelectorId>, clicked: bool, tmp: int)
    ensures PatchCombo(s, patchCount, selectors, clicked, s.config.showFishFromPatch as int) == ComboOutcome(s, false)
    ensures PatchCombo(s, patchCount, selectors, false, tmp) == ComboOutcome(s, false)
  {
  }

  /** Choosing a different entry that has a selector stores it, keeps the five
      flags, binds the chosen selector, and adds exactly one save followed by
      exactly one recompute, which already sees the new selector and configuration. */
  lemma PatchComboChanged(s: Options, patchCount: nat, selectors: seq<SelectorId>, tmp: int)
    requires 0 <= tmp < patchCount
    requires tmp < |selectors|
    requires tmp != s.config.showFishFromPatch as int
    ensures var r := PatchCombo(s, patchCount, selectors, true, tmp).state;
      r.config.showFishFromPatch as int == tmp % 256
      && (forall t :: Flag(r.config, t) == Flag(s.config, t))
      && r.selector == selectors[tmp]
      && Saves(r.effects) == Saves(s.effects) + 1
      && Recomputes(r.effects) == Recomputes(s.effects) + 1
      && r.effects[..|s.effects|] == s.effects
      && r.effects[|s.effects|] == Save(r.config)
      && r.effects[|s.effects| + 1] == Recompute(r.config, selectors[tmp])
  {
    var r := PatchCombo(s, patchCount, selectors, true, tmp).state;
    var e := [Save(r.config), Recompute(r.config, selectors[tmp])];
    assert r.effects == s.effects + e;
    CountAppend(s.effects, e, true);
    CountAppend(s.effects, e, false);
    assert Count(e, true) == 1 && Count(e, false) == 1 by {
      var rest := e[1..];
      assert rest == [Recompute(r.config, selectors[tmp])] && rest[1..] == [];
      assert Count(rest, true) == 0 && Count(rest, false) == 1;
    }
  }

  /** For an index that fits in a byte, choosing the same entry a second time is
      a no-op: the change guard makes the combo idempotent. */
  lemma PatchComboIdempotent(s: Options, patchCount: nat, selectors: seq<SelectorId>, tmp: int)
    requires 0 <= tmp < patchCount
    requires tmp < 256
    ensures PatchCombo(PatchCombo(s, patchCount, selectors, true, tmp).state, patchCount, selectors, true, tmp).state
         == PatchCombo(s, patchCount, selectors, true, tmp).state
  {
    var r := PatchCombo(s, patchCount, selectors, true, tmp).state;
    assert r.config.showFishFromPatch as int == tmp;
  }

  /** The fish tab's option controls. The fields are what the callbacks write; the
      effects record the calls made into persistence and the fish cache. */
  class FishTab {
    var config: Config
    var selector: SelectorId
    var effects: seq<Effect>
    const patchCount: nat
    const patchSelectors: seq<SelectorId>

    constructor (config: Config, selector: SelectorId, patchCount: nat, patchSelectors: seq<SelectorId>)
      ensures State() == Options(config, selector, [])
      ensures this.patchCount == patchCount && this.patchSelectors == patchSelectors
    {
      this.config := config;
      this.selector := selector;
      this.effects := [];
      this.patchCount := patchCount;
      this.patchSelectors := patchSelectors;
    }

    function State(): Options
      reads this
    {
      Options(config, selector, effects)
    }

    /** The cache's recompute of the relevant fish, recorded with what it reads. */
    method SetCurrentlyRelevantFish()
      modifies this
      ensures State() == old(State()).(effects := old(effects) + [Recompute(config, selector)])
    {
      effects := effects + [Recompute(config, selector)];
    }

    /** Persisting the configuration. */
    method Save()
      modifies this
      ensures State() == old(State()).(effects := old(effects) + [Effect.Save(config)])
    {
      effects := effects + [Effect.Save(config)];
    }

    method DrawAlreadyCaughtBox(b: bool)
      modifies this
      ensures State() == Checkbox(old(State()), AlreadyCaught, b)
    {
      config := config.(showAlreadyCaught := b);
    }

    method DrawAlwaysUpBox(b: bool)
      modifies this
      ensures State() == Checkbox(old(State()), AlwaysUp, b)
    {
      config := config.(showAlwaysUp := b);
      SetCurrentlyRelevantFish();
    }

    method DrawBigFishBox(b: bool)
      modifies this
      ensures State() == Checkbox(old(State()), BigFish, b)
    {
      config := config.(showBigFish := b);
      SetCurrentlyRelevantFish();
    }

    method DrawSmallFishBox(b: bool)
      modifies this
      ensures State() == Checkbox(old(State()), SmallFish, b)
    {
      config := config.(showSmallFish := b);
      SetCurrentlyRelevantFish();
    }

    method DrawSpearFishBox(b: bool)
      modifies this
      ensures State() == Checkbox(old(State()), SpearFish, b)
    {
      config := config.(showSpearFish := b);
      SetCurrentlyRelevantFish();
    }

    /** `clicked` is what the combo widget returned and `tmp` the index it left;
        `threw` reports the selector lookup failing. */
    method DrawReleasePatchCombo(clicked: bool, tmp: int) returns (threw: bool)
      requires PatchChanged(State(), clicked, tmp) ==> 0 <= tmp < patchCount
      modifies this
      ensures State() == PatchCombo(old(State()), patchCount, patchSelectors, clicked, tmp).state
      ensures threw == PatchCombo(old(State()), patchCount, patchSelectors, clicked, tmp).threw
    {
      threw := false;
      if clicked && tmp != config.showFishFromPatch as int {
        config := config.(showFishFromPatch := (tmp % 256) as byte);
        if tmp < |patchSelectors| {
          selector := patchSelectors[tmp];
          Save();
          SetCurrentlyRelevantFish();
        } else {
          threw := true;
        }
      }
    }
  }
}
