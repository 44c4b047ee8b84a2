/** The caption scraper: polls and a flush timer interleaved in any way lose nothing and hand
    nothing over twice. */
module Captions {
  import opened OrderedMerge

  /** A caption line as scraped at some instant. */
  datatype Scrap = Scrap(speaker: Option<string>, text: string, at: int)

  datatype Caption = Caption(speaker: Option<string>, text: string, startsAtSec: int)

  /** `${line.speaker ?? ""}::${line.text}` */
  function ScrapKey(s: Scrap): string {
    (if s.speaker.Some? then s.speaker.value else "") + "::" + s.text
  }

  /** `Math.round(ms / 1000)` */
  function Seconds(ms: int): int {
    (ms + 500) / 1000
  }

  function ToCaption(s: Scrap, startedAt: int): Caption {
    Caption(s.speaker, s.text, Seconds(s.at - startedAt))
  }

  /** A caption keeps speaker and text, and starts at the second nearest to its instant, the later
      one of two equally near, counted from the start of the meeting. */
  lemma CaptionTells(s: Scrap, startedAt: int)
    ensures var c, ms := ToCaption(s, startedAt), s.at - startedAt;
            c.speaker == s.speaker && c.text == s.text && -500 <= ms - 1000 * c.startsAtSec < 500
  {
  }

  /** A line without a speaker counts as one of a speaker without a name. */
  function Name(s: Scrap): string {
    if s.speaker.Some? then s.speaker.value else ""
  }

  /** Lines share a key exactly when they agree in speaker and text, as long as no name contains a
      colon. */
  lemma KeyNamesLine(a: Scrap, b: Scrap)
    requires ':' !in Name(a) && ':' !in Name(b)
    ensures ScrapKey(a) == ScrapKey(b) <==> Name(a) == Name(b) && a.text == b.text
  {
    DoubleColonSplits(Name(a), a.text, Name(b), b.text);
  }

  /** With a colon in a name two different lines can share a key, and the later one is lost. */
  lemma ColonLosesLine(at: int, later: int)
    ensures var a, b := Scrap(Some("Ann"), "Bob::hi", at), Scrap(Some("Ann::Bob"), "hi", later);
            ScrapKey(a) == ScrapKey(b) && a.text != b.text && FirstByKey([a, b]) == [a]
  {
    var a, b := Scrap(Some("Ann"), "Bob::hi", at), Scrap(Some("Ann::Bob"), "hi", later);
    assert ScrapKey(a) == "Ann::Bob::hi" == ScrapKey(b);
    assert [a, b][..1] == [a] && [a][..0] == [];
    assert FirstByKey([a]) == [a];
    assert Keys([a], ScrapKey)[0] == ScrapKey(b);
  }

  // ----- what should be handed over

  /** The scraps whose key has not occurred before, in order. */
  function FirstByKey(scraps: seq<Scrap>): seq<Scrap> {
    if scraps == [] then []
    else
      var init, last := scraps[..|scraps| - 1], scraps[|scraps| - 1];
      FirstByKey(init) + (if ScrapKey(last) in Keys(init, ScrapKey) then [] else [last])
  }

  function ToCaptions(scraps: seq<Scrap>, startedAt: int): (captions: seq<Caption>)
    ensures |captions| == |scraps|
  {
    seq(|scraps|, i requires 0 <= i < |scraps| => ToCaption(scraps[i], startedAt))
  }

  /** Each key occurs once, in order of first occurrence. */
  lemma {:induction false} FirstByKeyOrder(scraps: seq<Scrap>)
    ensures Keys(FirstByKey(scraps), ScrapKey) == Once(Keys(scraps, ScrapKey))
    ensures Distinct(Keys(FirstByKey(scraps), ScrapKey))
  {
    OnceIsDistinct(Keys(scraps, ScrapKey));
    hide ScrapKey;
    if scraps == [] {
    } else {
      var init, last := scraps[..|scraps| - 1], scraps[|scraps| - 1];
      FirstByKeyOrder(init);
      KeysInit(scraps, ScrapKey);
      assert Keys(scraps, ScrapKey)[..|init|] == Keys(init, ScrapKey);
    }
  }

  /** Each scrap kept is the very first one with its key. */
  lemma {:induction false} FirstByKeyIsFirst(scraps: seq<Scrap>, s: Scrap)
    requires s in FirstByKey(scraps)
    ensures Get(scraps, ScrapKey, ScrapKey(s)) == Some(s)
  {
    hide ScrapKey;
    var init, last := scraps[..|scraps| - 1], scraps[|scraps| - 1];
    KeysInit(scraps, ScrapKey);
    if s in FirstByKey(init) {
      FirstByKeyIsFirst(init, s);
      IndexOfPrefix(Keys(init, ScrapKey), [ScrapKey(last)], ScrapKey(s));
    } else {
      IndexOfIsFirst(Keys(scraps, ScrapKey), ScrapKey(last), |init|);
    }
  }

  function Flatten(batches: seq<seq<Caption>>): seq<Caption> {
    if batches == [] then [] else Flatten(batches[..|batches| - 1]) + batches[|batches| - 1]
  }

  lemma FlattenAppend(batches: seq<seq<Caption>>, batch: seq<Caption>)
    ensures Flatten(batches + [batch]) == Flatten(batches) + batch
  {
    assert (batches + [batch])[..|batches|] == batches;
  }

  datatype Happening = Poll(lines: seq<Scrap>) | Timer

  /** Everything scraped in the course of events. */
  function AllScraped(events: seq<Happening>): seq<Scrap> {
    if events == [] then []
    else AllScraped(events[..|events| - 1]) +
         (if events[|events| - 1].Poll? then events[|events| - 1].lines else [])
  }

  // ----- the scraper

  class Scraper {
    const startedAt: int
    var seen: set<string>
    var pending: seq<Caption>
    var posted: seq<seq<Caption>>      // the batches handed to the API
    ghost var scraped: seq<Scrap>

    /** Nothing scraped is lost, reordered or handed over twice. */
    ghost predicate Valid()
      reads this
    {
      Flatten(posted) + pending == ToCaptions(FirstByKey(scraped), startedAt) &&
      seen == (set k | k in Keys(scraped, ScrapKey)) &&
      forall i | 0 <= i < |posted| :: posted[i] != []
    }

    constructor (startedAt: int)
      ensures Valid() && scraped == [] && this.startedAt == startedAt
    {
      this.startedAt := startedAt;
      seen, pending, posted, scraped := {}, [], [], [];
    }

    method Flush()
      requires Valid()
      modifies this`pending, this`posted
      ensures Valid() && pending == []
      ensures posted == old(posted) + (if old(pending) == [] then [] else [old(pending)])
    {
      if pending == [] {
        return;
      }
      var batch := pending;
      pending := [];
      FlattenAppend(posted, batch);
      posted := posted + [batch];
    }

    method Scrape(lines: seq<Scrap>)
      requires Valid()
      modifies this`seen, this`pending, this`scraped
      ensures Valid() && scraped == old(scraped) + lines
    {
      hide FirstByKey, ToCaptions, ToCaption, ScrapKey, Flatten, Keys;
      for i := 0 to |lines|
        invariant Valid() && scraped == old(scraped) + lines[..i]
      {
        var line := lines[i];
        var key := ScrapKey(line);
        assert lines[..i + 1] == lines[..i] + [line];
        ScrapedOne(scraped, line, startedAt);
        scraped := scraped + [line];
        if key in seen {
          continue;
        }
        seen := seen + {key};
        pending := pending + [ToCaption(line, startedAt)];
      }
      assert lines[..|lines|] == lines;
    }

    /** A whole meeting: polls and timer flushes as they come, then the final flush. Exactly the
        first caption of each key has been handed over, once, in order. */
    method Run(events: seq<Happening>)
      requires Valid() && scraped == []
      modifies this
      ensures Valid() && pending == []
      ensures Flatten(posted) == ToCaptions(FirstByKey(AllScraped(events)), startedAt)
    {
      for i := 0 to |events|
        invariant Valid() && scraped == AllScraped(events[..i])
      {
        assert events[..i + 1][..i] == events[..i];
        match events[i] {
          case Poll(lines) => Scrape(lines);
          case Timer => Flush();
        }
      }
      assert events[..|events|] == events;
      Flush();
    }
  }

  lemma ScrapedOne(scraps: seq<Scrap>, line: Scrap, startedAt: int)
    ensures Keys(scraps + [line], ScrapKey) == Keys(scraps, ScrapKey) + [ScrapKey(line)]
    ensures ToCaptions(FirstByKey(scraps + [line]), startedAt) ==
            ToCaptions(FirstByKey(scraps), startedAt) +
            (if ScrapKey(line) in Keys(scraps, ScrapKey) then [] else [ToCaption(line, startedAt)])
  {
    assert (scraps + [line])[..|scraps|] == scraps;
  }
}
