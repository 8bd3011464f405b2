/** The feed document and the run as a whole (epg-to-rss.js, lines 14-99): sanitize,
    parse, select, derive the items and assemble the RSS 2.0 document. */
module Feed {
  import opened Wrappers
  import opened Sequences
  import opened Text
  import opened Sanitizer
  import opened Epg
  import opened Selection
  import opened Items

  const RssVersion: string := "2.0"
  const FeedTitle: string := "Tokyo Joshi Pro EPG Feed"
  const FeedLink: string := "https://tvguide.myjcom.jp/"
  const FeedDescription: string := "Programas de 東京女子プロレス"
  const FeedLanguage: string := "ja"

  /** The single `channel` element: fixed metadata followed by the items. */
  datatype Channel = Channel(title: string, link: string, description: string, language: string, items: seq<FeedItem>)

  /** The `rss` root element with its `version` attribute. */
  datatype RssDocument = RssDocument(version: string, channel: Channel)

  /** The callback `it => ({ title, link, guid, pubDate, description })` of lines 86-92. */
  function CopyItem(it: FeedItem): (r: FeedItem)
    ensures r == it
  {
    FeedItem(it.title, it.link, it.guid, it.pubDate, it.description)
  }

  /** The object `rssObj` of lines 77-96. Its items are the given items, in the same
      order, with every field copied verbatim. */
  function BuildFeed(items: seq<FeedItem>): (r: RssDocument)
    ensures r.version == "2.0"
    ensures r.channel.title == "Tokyo Joshi Pro EPG Feed" && r.channel.link == "https://tvguide.myjcom.jp/"
    ensures r.channel.description == "Programas de 東京女子プロレス" && r.channel.language == "ja"
    ensures r.channel.items == items
  {
    var copied := seq(|items|, i requires 0 <= i < |items| => CopyItem(items[i]));
    assert copied == items;
    RssDocument(RssVersion, Channel(FeedTitle, FeedLink, FeedDescription, FeedLanguage, copied))
  }

  /** Lines 23-96 on a parsed document. */
  function Generate(doc: EpgDocument, dates: DateRendering): (r: Result<RssDocument, Error>)
    ensures doc.tv.None? ==> r == Failure(MissingTvRoot)
    ensures r.Success? ==> |r.value.channel.items| <= MaxItems
    ensures r.Success? ==> r.value == BuildFeed(r.value.channel.items)
  {
    var tv :- doc.tv.ToResult(MissingTvRoot);
    var items :- DeriveAll(Select(Programmes(tv)), dates);
    Success(BuildFeed(items))
  }

  /** Lines 14-99 on the downloaded text. `parse` stands for the XML parser, which is
      not part of this model; any failure means that no feed is produced. */
  function Run(raw: string, parse: string -> Option<EpgDocument>, dates: DateRendering): (r: Result<RssDocument, Error>)
    ensures parse(Sanitize(raw)).None? ==> r == Failure(ParseFailed)
    ensures parse(Sanitize(raw)).Some? ==> r == Generate(parse(Sanitize(raw)).value, dates)
  {
    var doc :- parse(Sanitize(raw)).ToResult(ParseFailed);
    Generate(doc, dates)
  }

  /** The feed holds exactly the first min(30, matches) matching programmes, one item
      each, in document order; the run fails exactly when one of THOSE programmes has
      no attributes (programmes the filter drops are never read further). */
  lemma GenerateItems(doc: EpgDocument, dates: DateRendering)
    requires doc.tv.Some?
    ensures var sel := Select(Programmes(doc.tv.value));
      var r := Generate(doc, dates);
      && (r.Success? <==> forall i :: 0 <= i < |sel| ==> sel[i].attrs.Some?)
      && (r.Failure? ==> r.error == MissingAttributes)
      && (r.Success? ==>
            && |r.value.channel.items| == (if |Filter(Programmes(doc.tv.value))| < MaxItems then |Filter(Programmes(doc.tv.value))| else MaxItems)
            && forall i :: 0 <= i < |sel| ==> Derive(sel[i], dates) == Success(r.value.channel.items[i]))
  {
  }

  /** A guide without programmes gives a feed with the channel metadata and no items. */
  lemma NoProgrammesNoItems(dates: DateRendering)
    ensures Generate(EpgDocument(Some(Tv(None))), dates) == Success(BuildFeed([]))
  {
  }

  /** When no programme matches, the feed has no items. */
  lemma NoMatchesNoItems(doc: EpgDocument, dates: DateRendering)
    requires doc.tv.Some? && Filter(Programmes(doc.tv.value)) == []
    ensures Generate(doc, dates) == Success(BuildFeed([]))
  {
  }

  /** Every item's title contains the needle, so the "Sin título" fallback never reaches
      the feed. */
  lemma ItemTitlesContainNeedle(doc: EpgDocument, dates: DateRendering, i: nat)
    requires Generate(doc, dates).Success?
    requires i < |Generate(doc, dates).value.channel.items|
    ensures Includes(Generate(doc, dates).value.channel.items[i].title, Needle)
  {
  }

  /** Ideographic spaces and line breaks in the downloaded text never change the run's
      outcome. */
  lemma RunIgnoresDeletedCharacters(a: string, c: char, b: string, parse: string -> Option<EpgDocument>, dates: DateRendering)
    requires c == IdeographicSpace || c == CR || c == LF
    ensures Run(a + [c] + b, parse, dates) == Run(a + b, parse, dates)
  {
    SanitizeIgnoresDeleted(a, c, b);
  }

  /** One programme titled "東京女子プロレス #123" on channel "CH1", starting at
      "20240101120000", described as "test desc", gives exactly one item with that
      title, the guid "東京女子プロレス #12320240101120000" and a description that names
      the channel and the description. */
  lemma SingleProgrammeFeed(dates: DateRendering)
    ensures var p := Programme(Some(Attributes(Some("CH1"), Some("20240101120000"))), ["東京女子プロレス #123"], ["test desc"]);
      var r := Generate(EpgDocument(Some(Tv(Some([p])))), dates);
      && r.Success? && |r.value.channel.items| == 1
      && r.value.channel.items[0].title == "東京女子プロレス #123"
      && r.value.channel.items[0].guid == "東京女子プロレス #12320240101120000"
      && Includes(r.value.channel.items[0].description, "CH1")
      && Includes(r.value.channel.items[0].description, "test desc")
  {
    var p := Programme(Some(Attributes(Some("CH1"), Some("20240101120000"))), ["東京女子プロレス #123"], ["test desc"]);
    var doc := EpgDocument(Some(Tv(Some([p]))));
    ExampleSelected(p);
    GenerateItems(doc, dates);
    ExampleItem(p, dates);
  }

  /** The item derived from the programme of `SingleProgrammeFeed`. */
  lemma ExampleItem(p: Programme, dates: DateRendering)
    requires p == Programme(Some(Attributes(Some("CH1"), Some("20240101120000"))), ["東京女子プロレス #123"], ["test desc"])
    ensures Derive(p, dates).Success?
    ensures Derive(p, dates).value.title == "東京女子プロレス #123"
    ensures Derive(p, dates).value.guid == "東京女子プロレス #12320240101120000"
    ensures Includes(Derive(p, dates).value.description, "CH1")
    ensures Includes(Derive(p, dates).value.description, "test desc")
  {
    ExampleGuid(p, dates);
    ExampleDescription(p, dates);
  }

  /** Title and guid of the item of `SingleProgrammeFeed`. */
  lemma ExampleGuid(p: Programme, dates: DateRendering)
    requires p == Programme(Some(Attributes(Some("CH1"), Some("20240101120000"))), ["東京女子プロレス #123"], ["test desc"])
    ensures Derive(p, dates).Success?
    ensures Derive(p, dates).value.title == "東京女子プロレス #123"
    ensures Derive(p, dates).value.guid == "東京女子プロレス #12320240101120000"
  {
    assert Slice("20240101120000", 0, StampLength) == "20240101120000";
    GuidRule(p, dates);
  }

  /** Description of the item of `SingleProgrammeFeed`. */
  lemma ExampleDescription(p: Programme, dates: DateRendering)
    requires p == Programme(Some(Attributes(Some("CH1"), Some("20240101120000"))), ["東京女子プロレス #123"], ["test desc"])
    ensures Derive(p, dates).Success?
    ensures Includes(Derive(p, dates).value.description, "CH1")
    ensures Includes(Derive(p, dates).value.description, "test desc")
  {
    var stamp := StartStamp(p.attrs.value);
    assert stamp.Some? && stamp.value != "";
    var jst := dates.local(IsoText(Parts(stamp.value)));
    assert Derive(p, dates).value.description == Description(jst, "CH1", "test desc");
  }

  /** The programme of `SingleProgrammeFeed` is selected. */
  lemma ExampleSelected(p: Programme)
    requires p.titles == ["東京女子プロレス #123"]
    ensures Select([p]) == [p]
  {
  }
}
