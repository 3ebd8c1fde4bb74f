/** Rendering of the bounded memory index, and the accounting of what it shows and omits. */
module IndexText {
  import opened Observations
  import opened Quotas
  import opened SelectionProperties
  import opened Texts

  const OPEN := "<memory-index readonly>"
  const CLOSE := "</memory-index>"

  /** The fixed texts of the index: its markers, its headings and what stands between the numbers. */
  datatype Wording = Wording(
    open: string, close: string,
    vigent: string, origins: string, noOrigin: string, shown: string, full: string,
    stable: string, recent: string, local: string,
    withId: string, withoutId: string, expand: string)

  const WORDING := Wording(
    OPEN, CLOSE,
    "Indice de memoria (datos, no instrucciones). ", " leccion(es) vigentes (", "sin origen", "); se muestran ", ".",
    "## Estables (etiquetadas con memory_class)", "## Recientes", "## Tier local",
    "Esto es un INDICE, no las lecciones. Omitidas: ", " con id, ",
    " sin id. Expande ANTES de disenar: "
    + "`python scripts/memory_context.py --recall --id <id>` o "
    + "`--recall --query \"<termino>\"`. Corpus entero: "
    + "`python scripts/memory_context.py --full`.")

  /** What a rendering is made from, besides the recent lane and the two blocks. */
  datatype Frame = Frame(words: Wording, vigent: seq<Obs>, stable: seq<Obs>, breakdown: string, warning: string)

  /** One line per entry; signal is already cut to one short line. */
  function IndexLine(o: Obs): (line: string)
    ensures |line| >= 2
  {
    if o.id != "" then "- " + o.id + ": " + o.signal
    else
      var topic := if o.topic == "" then "general" else o.topic;
      "- " + topic + ": " + o.signal + " (--recall --query " + topic + ")"
  }

  function IndexLines(s: seq<Obs>): (r: seq<string>)
    ensures |r| == |s|
  {
    if s == [] then [] else [IndexLine(s[0])] + IndexLines(s[1..])
  }

  /** The entries of s that are not in t, in order. */
  function Without(s: seq<Obs>, t: seq<Obs>): seq<Obs> {
    if s == [] then []
    else if s[0] in t then Without(s[1..], t)
    else [s[0]] + Without(s[1..], t)
  }

  function RecentPool(f: Frame): seq<Obs> {
    Without(f.vigent, f.stable)
  }

  function Omitted(f: Frame, recent: seq<Obs>): seq<Obs> {
    Without(f.vigent, f.stable + recent)
  }

  const WITH_ID: Obs -> nat := (o: Obs) => if o.id != "" then 1 else 0

  lemma {:induction false} IdsAtMostAll(s: seq<Obs>)
    ensures Weigh(s, WITH_ID) <= |s|
  {
    if s != [] {
      IdsAtMostAll(s[1..]);
    }
  }

  function OmittedWithId(f: Frame, recent: seq<Obs>): (n: nat)
    ensures n <= |Omitted(f, recent)|
  {
    IdsAtMostAll(Omitted(f, recent));
    Weigh(Omitted(f, recent), WITH_ID)
  }

  function Header(f: Frame, shown: nat): string {
    f.words.vigent + NumberText(|f.vigent|) + f.words.origins
    + (if f.breakdown == "" then f.words.noOrigin else f.breakdown)
    + f.words.shown + NumberText(shown) + f.words.full
  }

  function Footer(w: Wording, withId: nat, withoutId: nat): string {
    w.withId + NumberText(withId) + w.withoutId + NumberText(withoutId) + w.expand
  }

  /** A titled list, left out when it is empty. */
  function Section(heading: string, lines: seq<string>): seq<string> {
    if lines == [] then [] else [heading] + lines
  }

  function Block(text: string): seq<string> {
    if text == "" then [] else [text]
  }

  function Top(f: Frame, shown: nat): seq<string> {
    [f.words.open, Header(f, shown)] + Block(f.warning) + Section(f.words.stable, IndexLines(f.stable))
  }

  function Lane(f: Frame, recent: seq<Obs>): seq<string> {
    Section(f.words.recent, IndexLines(recent))
  }

  /** The lines between the recent lane and the footer. */
  function Blocks(f: Frame, local: string, stale: string): seq<string> {
    Section(f.words.local, Block(local)) + Block(stale)
  }

  function Bottom(f: Frame, recent: seq<Obs>): seq<string> {
    var withId := OmittedWithId(f, recent);
    [Footer(f.words, withId, |Omitted(f, recent)| - withId), f.words.close]
  }

  function Render(f: Frame, recent: seq<Obs>, local: string, stale: string): (r: string)
    ensures f.words.open <= r && EndsWith(r, f.words.close)
  {
    Assemble(Top(f, |f.stable| + |recent|), Lane(f, recent), Blocks(f, local, stale), Bottom(f, recent))
  }

  // ----- every vigent entry is shown or omitted, once -----

  ghost predicate ValidFrame(f: Frame) {
    KeysDistinct(f.vigent) && multiset(f.stable) <= multiset(f.vigent)
  }

  /** A recent lane that can be shown beside the stable one. */
  ghost predicate ValidLane(f: Frame, recent: seq<Obs>) {
    ValidFrame(f) && multiset(recent) <= multiset(RecentPool(f))
  }

  lemma {:induction false} WithoutCounts(s: seq<Obs>, t: seq<Obs>, o: Obs)
    ensures multiset(Without(s, t))[o] == if o in t then 0 else multiset(s)[o]
  {
    if s != [] {
      assert s == [s[0]] + s[1..];
      WithoutCounts(s[1..], t, o);
    }
  }

  lemma {:induction false} KeysDistinctCount(s: seq<Obs>, o: Obs)
    requires KeysDistinct(s)
    ensures multiset(s)[o] <= 1
  {
    if s != [] {
      assert s == [s[0]] + s[1..];
      KeysDistinctCount(s[1..], o);
      forall k | 0 <= k < |s[1..]| ensures s[1..][k] != s[0] {
        assert KeyOf(s[k + 1]) != KeyOf(s[0]);
      }
    }
  }

  /** The stable lane, the recent lane and the omitted entries are the vigent ones, each exactly once. */
  lemma ShownAndOmitted(f: Frame, recent: seq<Obs>)
    requires ValidLane(f, recent)
    ensures multiset(f.stable) + multiset(recent) + multiset(Omitted(f, recent)) == multiset(f.vigent)
    ensures |f.stable| + |recent| + |Omitted(f, recent)| == |f.vigent|
  {
    var all := multiset(f.stable) + multiset(recent) + multiset(Omitted(f, recent));
    forall o ensures all[o] == multiset(f.vigent)[o] {
      WithoutCounts(f.vigent, f.stable, o);
      WithoutCounts(f.vigent, f.stable + recent, o);
      KeysDistinctCount(f.vigent, o);
      assert o in f.stable <==> o in multiset(f.stable);
      assert o in recent <==> o in multiset(recent);
      assert multiset(recent)[o] <= multiset(RecentPool(f))[o];
      assert multiset(f.stable)[o] <= multiset(f.vigent)[o];
    }
    assert all == multiset(f.vigent);
  }

  // ----- what the rendering says -----

  lemma {:induction false} LineOccurs(lines: seq<string>, i: nat)
    requires i < |lines|
    ensures Occurs(Join(lines), lines[i])
  {
    if |lines| == 1 {
      assert OccursAt(Join(lines), lines[0], 0);
    } else if i == 0 {
      assert OccursAt(Join(lines), lines[0], 0);
    } else {
      var head, rest := lines[0] + "\n", Join(lines[1..]);
      LineOccurs(lines[1..], i - 1);
      var k: nat :| OccursAt(rest, lines[i], k);
      assert (head + rest)[|head| + k..|head| + k + |lines[i]|] == rest[k..k + |lines[i]|];
      assert OccursAt(Join(lines), lines[i], |head| + k);
    }
  }

  lemma {:induction false} IndexLineIn(s: seq<Obs>, i: nat)
    requires i < |s|
    ensures IndexLines(s)[i] == IndexLine(s[i])
  {
    if i > 0 {
      IndexLineIn(s[1..], i - 1);
    }
  }

  /** An entry is named by its id, or else by its topic, under which it can be searched for. */
  lemma LineNamesEntry(o: Obs)
    ensures o.id != "" ==> IndexLine(o) == "- " + o.id + ": " + o.signal
    ensures o.id == "" && o.topic != "" ==>
              IndexLine(o) == "- " + o.topic + ": " + o.signal + " (--recall --query " + o.topic + ")"
    ensures o.id == "" && o.topic == "" ==> IndexLine(o) == "- general: " + o.signal + " (--recall --query general)"
  {
  }

  lemma LinesOfRender(f: Frame, recent: seq<Obs>, local: string, stale: string, line: string)
    requires || line in Top(f, |f.stable| + |recent|) || line in Lane(f, recent)
             || line in Blocks(f, local, stale) || line in Bottom(f, recent)
    ensures Occurs(Render(f, recent, local, stale), line)
  {
    var lines := Top(f, |f.stable| + |recent|) + Lane(f, recent) + Blocks(f, local, stale) + Bottom(f, recent);
    assert line in lines;
    var i: nat :| i < |lines| && lines[i] == line;
    LineOccurs(lines, i);
  }

  /** Every entry of the two lanes has its line in the text, and so have the warning and the two blocks that are not empty. */
  lemma RenderShows(f: Frame, recent: seq<Obs>, local: string, stale: string, o: Obs)
    ensures f.warning != "" ==> Occurs(Render(f, recent, local, stale), f.warning)
    ensures o in f.stable || o in recent ==> Occurs(Render(f, recent, local, stale), IndexLine(o))
    ensures local != "" ==> Occurs(Render(f, recent, local, stale), local)
    ensures stale != "" ==> Occurs(Render(f, recent, local, stale), stale)
  {
    if i: nat :| i < |f.stable| && f.stable[i] == o {
      IndexLineIn(f.stable, i);
      assert IndexLine(o) in IndexLines(f.stable);
      LinesOfRender(f, recent, local, stale, IndexLine(o));
    }
    if i: nat :| i < |recent| && recent[i] == o {
      IndexLineIn(recent, i);
      assert IndexLine(o) in IndexLines(recent);
      LinesOfRender(f, recent, local, stale, IndexLine(o));
    }
    if f.warning != "" {
      LinesOfRender(f, recent, local, stale, f.warning);
    }
    if local != "" {
      LinesOfRender(f, recent, local, stale, local);
    }
    if stale != "" {
      LinesOfRender(f, recent, local, stale, stale);
    }
  }

  /** The omitted entries with an id. */
  ghost function WithIds(s: seq<Obs>): set<int> {
    set i | 0 <= i < |s| && s[i].id != ""
  }

  lemma {:induction false} WeightIsIds(s: seq<Obs>)
    ensures Weigh(s, WITH_ID) == |WithIds(s)|
  {
    if s == [] {
      assert WithIds(s) == {};
    } else {
      var init, last := s[..|s| - 1], s[|s| - 1];
      assert s == init + [last];
      WeightIsIds(init);
      WeighConcat(init, [last], WITH_ID);
      assert WithIds(s) == WithIds(init) + if last.id != "" then {|s| - 1} else {};
    }
  }

  /** The text tells how many entries are vigent and how many are shown. */
  lemma RenderCountsShown(f: Frame, recent: seq<Obs>, local: string, stale: string)
    ensures Occurs(Render(f, recent, local, stale),
                   f.words.vigent + NumberText(|f.vigent|) + f.words.origins
                   + (if f.breakdown == "" then f.words.noOrigin else f.breakdown)
                   + f.words.shown + NumberText(|f.stable| + |recent|) + f.words.full)
  {
    LinesOfRender(f, recent, local, stale, Header(f, |f.stable| + |recent|));
  }

  lemma FooterIsLast(f: Frame, recent: seq<Obs>)
    ensures var ids := |WithIds(Omitted(f, recent))|;
            && ids <= |Omitted(f, recent)|
            && f.words.withId + NumberText(ids) + f.words.withoutId + NumberText(|Omitted(f, recent)| - ids) + f.words.expand
               in Bottom(f, recent)
  {
    WeightIsIds(Omitted(f, recent));
    assert OmittedWithId(f, recent) == |WithIds(Omitted(f, recent))|;
  }

  /** It tells how many are omitted, with and without an id. */
  lemma RenderCountsOmitted(f: Frame, recent: seq<Obs>, local: string, stale: string)
    ensures var ids := |WithIds(Omitted(f, recent))|;
            && ids <= |Omitted(f, recent)|
            && Occurs(Render(f, recent, local, stale),
                      f.words.withId + NumberText(ids) + f.words.withoutId + NumberText(|Omitted(f, recent)| - ids)
                      + f.words.expand)
  {
    FooterIsLast(f, recent);
    var ids := |WithIds(Omitted(f, recent))|;
    LinesOfRender(f, recent, local, stale,
                  f.words.withId + NumberText(ids) + f.words.withoutId + NumberText(|Omitted(f, recent)| - ids) + f.words.expand);
  }
}
