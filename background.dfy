/** The background and theme controller of js/script.js: twelve background
    images, a random/fixed mode, and the light/dark signal derived from the
    average colour of the chosen image. */
module Background {

  /** Number of entries in the `backgrounds` table. */
  const BackgroundCount: nat := 12

  datatype BgMode = Random | Fixed

  /** One 8-bit colour channel as read from canvas image data. */
  type Channel = x: int | 0 <= x < 256

  /** The outcome of loading the background image: its 1×1 average colour,
      or the `onerror` path. */
  datatype ImageOutcome = Loaded(r: Channel, g: Channel, b: Channel) | LoadError

  /** The payload of the `lattice-theme-change` event. */
  datatype ThemeSignal = ThemeSignal(isDark: bool, brightness: real)

  /** Luma with the weights 0.299/0.587/0.114, scaled by 1000 so that it is
      an integer. */
  function ScaledLuma(r: Channel, g: Channel, b: Channel): int {
    299 * r + 587 * g + 114 * b
  }

  /** `analyzeBackground`: on load, brightness is the weighted channel sum and
      the image counts as dark when it is below 128; on a load error the
      signal is dark with brightness 0. */
  function Analyze(outcome: ImageOutcome): (s: ThemeSignal)
    ensures outcome.LoadError? ==> s == ThemeSignal(true, 0.0)
    ensures outcome.Loaded? ==> (s.isDark <==> ScaledLuma(outcome.r, outcome.g, outcome.b) < 128000)
    ensures outcome.Loaded? ==> 1000.0 * s.brightness == ScaledLuma(outcome.r, outcome.g, outcome.b) as real
    ensures 0.0 <= s.brightness <= 255.0
  {
    match outcome
    case LoadError => ThemeSignal(true, 0.0)
    case Loaded(r, g, b) =>
      var brightness := 0.299 * r as real + 0.587 * g as real + 0.114 * b as real;
      ThemeSignal(brightness < 128.0, brightness)
  }

  /** The weights sum to one, so a grey pixel is dark exactly below level 128. */
  lemma GreyThreshold(v: Channel)
    ensures Analyze(Loaded(v, v, v)).isDark <==> v < 128
  {
  }

  /** The two extreme greys: white is light and black is dark. */
  lemma WhiteIsLightBlackIsDark()
    ensures !Analyze(Loaded(255, 255, 255)).isDark
    ensures Analyze(Loaded(0, 0, 0)).isDark
  {
  }

  /** Darkening any channel never turns a dark image light. */
  lemma DarkIsMonotone(r1: Channel, g1: Channel, b1: Channel, r2: Channel, g2: Channel, b2: Channel)
    requires r1 <= r2 && g1 <= g2 && b1 <= b2
    ensures Analyze(Loaded(r2, g2, b2)).isDark ==> Analyze(Loaded(r1, g1, b1)).isDark
  {
  }

  class BackgroundController {
    var mode: BgMode
    var bgIndex: int
    var fixedBgIndex: int
    /** Every index handed to `applyBackground`, oldest first. */
    var applied: seq<int>

    /** In random mode the index comes from the random draw; in fixed mode the
        pinned index is the one shown; the last applied image is always the
        current one. */
    ghost predicate Valid()
      reads this
    {
      Consistent() && (mode == Random ==> 0 <= bgIndex < BackgroundCount)
    }

    /** The part of Valid that also holds in the middle of `toggleBgMode`,
        after the mode flips to random and before the new draw. */
    ghost predicate Consistent()
      reads this
    {
      && (mode == Fixed ==> fixedBgIndex == bgIndex)
      && |applied| > 0 && applied[|applied| - 1] == bgIndex
    }

    /** Module start-up plus the `DOMContentLoaded` handler: random mode, a
        random first background, applied once. */
    constructor ()
      ensures Valid()
      ensures mode == Random && fixedBgIndex == 0 && applied == [bgIndex]
    {
      mode := Random;
      fixedBgIndex := 0;
      var first: int :| 0 <= first < BackgroundCount;
      bgIndex := first;
      applied := [first];
    }

    /** `changeBackground`, also the 5-minute interval tick: nothing happens in
        fixed mode; in random mode a random background is chosen and applied. */
    method ChangeBackground()
      requires Consistent()
      modifies this`bgIndex, this`applied
      ensures Valid()
      ensures old(mode) == Fixed ==> bgIndex == old(bgIndex) && applied == old(applied)
      ensures old(mode) == Random ==> 0 <= bgIndex < BackgroundCount && applied == old(applied) + [bgIndex]
    {
      if mode == Fixed {
        return;
      }
      var next: int :| 0 <= next < BackgroundCount;
      bgIndex := next;
      applied := applied + [bgIndex];
    }

    /** `toggleBgMode`: random pins the current background without reloading
        it; fixed returns to random and immediately draws a new background. */
    method ToggleBgMode()
      requires Valid()
      modifies this
      ensures Valid()
      ensures old(mode) == Random ==>
                mode == Fixed && fixedBgIndex == old(bgIndex) && bgIndex == old(bgIndex) && applied == old(applied)
      ensures old(mode) == Fixed ==>
                mode == Random && fixedBgIndex == old(fixedBgIndex) && 0 <= bgIndex < BackgroundCount
                && applied == old(applied) + [bgIndex]
    {
      if mode == Random {
        mode := Fixed;
        fixedBgIndex := bgIndex;
      } else {
        mode := Random;
        ChangeBackground();
      }
    }

    /** `selectBackground(index)`: pin the chosen background and apply it. */
    method SelectBackground(index: int)
      requires Valid()
      modifies this
      ensures Valid()
      ensures mode == Fixed && bgIndex == index && fixedBgIndex == index
      ensures applied == old(applied) + [index]
    {
      mode := Fixed;
      fixedBgIndex := index;
      bgIndex := index;
      applied := applied + [index];
    }
  }
}
