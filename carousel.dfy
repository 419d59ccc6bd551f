/** The poem carousel of the main page (js/script.js): the loaded poem list,
    the current index, and what the poem card shows after a render. */
module Carousel {

  import opened Wrappers
  import opened JsIndex
  import TongYun

  /** A poem record of the data file; a missing `notes` field is the empty list. */
  datatype Poem = Poem(title: string, author: string, content: seq<string>, notes: seq<string>)

  /** What the card shows: the title without its rhyme annotation, one
      paragraph per content line, and whether the notes button is highlighted. */
  datatype PoemView = PoemView(title: string, lines: seq<string>, notesHighlighted: bool)

  /** The card after `renderPoem`: the title loses its rhyme annotation (and
      exactly its four characters, when present), the lines are the poem's
      own, and the notes button is highlighted iff the poem has notes. */
  function ViewOf(p: Poem): (v: PoemView)
    ensures TongYun.HasAnnotation(p.title) ==> |v.title| == |p.title| - TongYun.TokenLength
    ensures !TongYun.HasAnnotation(p.title) ==> v.title == p.title
    ensures v.lines == p.content
    ensures v.notesHighlighted <==> p.notes != []
  {
    PoemView(TongYun.Strip(p.title), p.content, |p.notes| > 0)
  }

  class PoemCarousel {
    var poems: seq<Poem>
    var currentIndex: JsNum
    /** The last view swapped in by a render, None before the first one. */
    var shown: Option<PoemView>

    /** Whenever a poem is loaded, the index points at one of them. */
    ghost predicate Valid()
      reads this
    {
      |poems| > 0 ==> InRange(currentIndex, |poems|)
    }

    /** Module start-up: no poems, index 0, nothing rendered. */
    constructor ()
      ensures Valid()
      ensures poems == [] && currentIndex == Num(0) && shown == None
    {
      poems := [];
      currentIndex := Num(0);
      shown := None;
    }

    /** The success path of `loadPoems`: the list is replaced, a random start
        index `Math.floor(Math.random() * poems.length)` is drawn and rendered.
        For an empty list the draw is 0 and the render does nothing. */
    method Load(list: seq<Poem>)
      modifies this
      ensures Valid()
      ensures poems == list
      ensures |list| == 0 ==> currentIndex == Num(0) && shown == old(shown)
      ensures |list| > 0 ==> InRange(currentIndex, |list|) && shown == Some(ViewOf(list[currentIndex.v]))
    {
      poems := list;
      var start: int :| if |list| == 0 then start == 0 else 0 <= start < |list|;
      currentIndex := Num(start);
      RenderPoem(currentIndex);
    }

    /** `renderPoem(index)`: a no-op on an empty list, otherwise the card shows
        the poem at `index`. Callers only pass the current index, which is in
        range whenever the list is not empty. */
    method RenderPoem(index: JsNum)
      requires |poems| == 0 || InRange(index, |poems|)
      modifies this`shown
      ensures |poems| == 0 ==> shown == old(shown)
      ensures |poems| > 0 ==> shown == Some(ViewOf(poems[index.v]))
    {
      if |poems| == 0 {
        return;
      }
      shown := Some(ViewOf(poems[index.v]));
    }

    /** `nextPoem`: the index moves one forward, wrapping to 0 after the last
        poem; on an empty list it becomes NaN and nothing is rendered. */
    method NextPoem()
      requires Valid()
      modifies this`currentIndex, this`shown
      ensures Valid()
      ensures currentIndex == NextIndex(old(currentIndex), |poems|)
      ensures |poems| > 0 ==> currentIndex == Num((old(currentIndex).v + 1) % |poems|)
      ensures |poems| == 0 ==> currentIndex.NaN? && shown == old(shown)
      ensures |poems| > 0 ==> shown == Some(ViewOf(poems[currentIndex.v]))
    {
      currentIndex := NextIndex(currentIndex, |poems|);
      if |poems| > 0 {
        NavigationWraps(old(currentIndex).v, |poems|);
      }
      RenderPoem(currentIndex);
    }

    /** `prevPoem`: the index moves one back, wrapping to the last poem from 0;
        on an empty list it becomes NaN and nothing is rendered. */
    method PrevPoem()
      requires Valid()
      modifies this`currentIndex, this`shown
      ensures Valid()
      ensures currentIndex == PrevIndex(old(currentIndex), |poems|)
      ensures |poems| > 0 ==> currentIndex == Num(if old(currentIndex).v == 0 then |poems| - 1 else old(currentIndex).v - 1)
      ensures |poems| == 0 ==> currentIndex.NaN? && shown == old(shown)
      ensures |poems| > 0 ==> shown == Some(ViewOf(poems[currentIndex.v]))
    {
      currentIndex := PrevIndex(currentIndex, |poems|);
      if |poems| > 0 {
        NavigationWraps(old(currentIndex).v, |poems|);
      }
      RenderPoem(currentIndex);
    }
  }
}
