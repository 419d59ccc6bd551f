/** The stand-alone poem page of the repository root (script.js): a fixed
    table of five poems, the title / note derivation of `renderPoem`, and the
    forward / back navigation from a random start. */
module LegacyPage {

  import opened Wrappers
  import opened JsIndex
  import TongYun

  /** A poem record; this page's records may carry a single `note` string. */
  datatype Poem = Poem(title: string, author: string, content: seq<string>, note: Option<string>)

  /** The note added to a poem whose title carries the rhyme annotation. */
  const TongYunNote: string := "注：通韵"

  /** A paragraph of the poem body: a content line, or the note paragraph
      (class `poem-note`). */
  datatype Paragraph = Line(text: string) | NoteLine(text: string)

  /** What the card shows after a render. */
  datatype PoemView = PoemView(title: string, body: seq<Paragraph>)

  /** `poem.note || ""`: a missing note and an empty one both read as "". */
  function StoredNote(p: Poem): string {
    p.note.GetOr("")
  }

  /** The note shown: an annotated title supplies the rhyme note only when the
      record has none of its own, so a note of the record's own always wins
      and the note is empty only for an unannotated poem without a note. */
  function DisplayNote(p: Poem): (note: string)
    ensures StoredNote(p) != "" ==> note == StoredNote(p)
    ensures StoredNote(p) == "" && TongYun.HasAnnotation(p.title) ==> note == TongYunNote
    ensures note == "" <==> StoredNote(p) == "" && !TongYun.HasAnnotation(p.title)
  {
    var note := StoredNote(p);
    if TongYun.HasAnnotation(p.title) && note == "" then TongYunNote else note
  }

  /** The card after `renderPoem`: the title loses its first annotation (and
      exactly its four characters), the poem's lines come in order, and one
      note paragraph follows them exactly when the record has a note or the
      title is annotated. */
  function Render(p: Poem): (v: PoemView)
    ensures TongYun.HasAnnotation(p.title) ==> |v.title| == |p.title| - TongYun.TokenLength
    ensures !TongYun.HasAnnotation(p.title) ==> v.title == p.title
    ensures |v.body| == |p.content| + 1 <==> StoredNote(p) != "" || TongYun.HasAnnotation(p.title)
    ensures |v.body| == |p.content| <==> StoredNote(p) == "" && !TongYun.HasAnnotation(p.title)
    ensures forall i :: 0 <= i < |p.content| ==> v.body[i] == Line(p.content[i])
    ensures |v.body| > |p.content| ==> v.body[|p.content|] == NoteLine(DisplayNote(p))
    ensures forall i :: 0 <= i < |v.body| ==> (v.body[i].NoteLine? <==> i == |p.content|)
  {
    var note := DisplayNote(p);
    PoemView(TongYun.Strip(p.title),
             seq(|p.content|, i requires 0 <= i < |p.content| => Line(p.content[i]))
             + (if note != "" then [NoteLine(note)] else []))
  }

  /** The `poems` table. */
  function Poems(): seq<Poem> {
    [Poem("七律·自况", "当代 | 理工博士",
          ["硬语盘空字字真，诗词无羽拂纤尘。", "推崇奋发探原委，克制强行论果因。",
           "既恐他人期待己，还忧自己索求人。", "痴迷一件难平事，解放才情有限身。"], None),
     Poem("七律·落差", "当代 | 理工博士",
          ["静气凝神窗外光，焉知此刻不彷徨？", "伊人一点眉间蹙，博士浑身蜗角慌。",
           "惧怕落差安赫尔，迷茫处在太平洋。", "三生石约牵南北，缘分留诗多少行。"], None),
     Poem("七律·微时", "当代 | 理工博士",
          ["不复博闻强记身，灵台懒惰早蒙尘。", "一杯共醉隔空酒，万里相逢孤独人。",
           "试问谁无心上锁，自知我乃井中鳞。", "诗歌伴奏微时趣，难免小山思小蘋。"], None),
     Poem("七律·纠缠(通韵)", "当代 | 理工博士",
          ["一树梧桐绕绿萝，缠绵悱恻爱生活。", "以为地理银河少，却是深情汉界多。",
           "状态不明薛定谔，形姿难测海森伯。", "对屏回首空余想，笑笑相逢犹在昨。"], None),
     Poem("七律·问卦", "当代 | 理工博士",
          ["无趣灵魂无趣吟，看天看地看飞禽。", "空楼独享韩娥曲，开卷隔离丝竹音。",
           "男士文章男士品，女人字句女人心。", "占星问卦神仙语，传说诗中有子衿。"], None)]
  }

  /** Five eight-line regulated verses, four lines of two verses each, none
      with a note of its own. */
  lemma PoemTable()
    ensures |Poems()| == 5
    ensures forall i :: 0 <= i < 5 ==> |Poems()[i].content| == 4 && Poems()[i].note == None
  {
  }

  /** Only the fourth title carries the annotation; it sits after the five
      characters 七律·纠缠. */
  lemma AnnotatedTitles()
    ensures forall i :: 0 <= i < 5 ==> (TongYun.HasAnnotation(Poems()[i].title) <==> i == 3)
    ensures TongYun.FirstAnnotationAt(Poems()[3].title, 5)
  {
    assert TongYun.AnnotationAt(Poems()[3].title, 5);
  }

  /** The fourth poem shows the title 七律·纠缠 with the rhyme note under its
      four lines; the others show title and lines unchanged and no note. */
  lemma RenderedTable()
    ensures Render(Poems()[3]).title == "七律·纠缠"
    ensures |Render(Poems()[3]).body| == 5 && Render(Poems()[3]).body[4] == NoteLine(TongYunNote)
    ensures forall i :: 0 <= i < 5 && i != 3 ==>
              Render(Poems()[i]).title == Poems()[i].title && |Render(Poems()[i]).body| == 4
  {
    PoemTable();
    AnnotatedTitles();
    var p := Poems()[3];
    StripAt(p.title, 5, "七律·纠缠");
  }

  /** Cutting the first annotation out of a title leaves what precedes it
      followed by what comes after. */
  lemma StripAt(title: string, i: nat, kept: string)
    requires TongYun.FirstAnnotationAt(title, i) && kept == title[..i] + title[i + TongYun.TokenLength..]
    ensures TongYun.Strip(title) == kept
  {
  }

  class PoemPage {
    var currentIndex: int
    /** The card contents, None before the first render. */
    var shown: Option<PoemView>

    /** The index always names a poem of the table. */
    ghost predicate Valid()
      reads this
    {
      0 <= currentIndex < |Poems()|
    }

    /** Script start-up: `currentIndex = 0`, nothing rendered yet. */
    constructor ()
      ensures Valid() && currentIndex == 0 && shown == None
    {
      currentIndex := 0;
      shown := None;
    }

    /** The `DOMContentLoaded` handler: a random start
        `Math.floor(Math.random() * poems.length)`, rendered. */
    method Start()
      modifies this`currentIndex, this`shown
      ensures Valid()
      ensures shown == Some(Render(Poems()[currentIndex]))
    {
      var start: int :| 0 <= start < |Poems()|;
      currentIndex := start;
      RenderPoem(currentIndex);
    }

    /** `renderPoem(index)`; the fade and the 500 ms delay are not modelled. */
    method RenderPoem(index: int)
      requires 0 <= index < |Poems()|
      modifies this`shown
      ensures shown == Some(Render(Poems()[index]))
    {
      shown := Some(Render(Poems()[index]));
    }

    /** `nextPoem`: one poem forward, from the last back to the first. */
    method NextPoem()
      requires Valid()
      modifies this`currentIndex, this`shown
      ensures Valid()
      ensures Num(currentIndex) == NextIndex(Num(old(currentIndex)), |Poems()|)
      ensures currentIndex == if old(currentIndex) == |Poems()| - 1 then 0 else old(currentIndex) + 1
      ensures shown == Some(Render(Poems()[currentIndex]))
    {
      currentIndex := (currentIndex + 1) % |Poems()|;
      NavigationWraps(old(currentIndex), |Poems()|);
      RenderPoem(currentIndex);
    }

    /** `prevPoem`: one poem back, from the first to the last. */
    method PrevPoem()
      requires Valid()
      modifies this`currentIndex, this`shown
      ensures Valid()
      ensures Num(currentIndex) == PrevIndex(Num(old(currentIndex)), |Poems()|)
      ensures currentIndex == if old(currentIndex) == 0 then |Poems()| - 1 else old(currentIndex) - 1
      ensures shown == Some(Render(Poems()[currentIndex]))
    {
      currentIndex := (currentIndex - 1 + |Poems()|) % |Poems()|;
      NavigationWraps(old(currentIndex), |Poems()|);
      RenderPoem(currentIndex);
    }
  }
}
