/** Turning one selected programme into a feed item (epg-to-rss.js, lines 37-74). */
module Items {
  import opened Wrappers
  import opened Sequences
  import opened Text
  import opened Epg

  const TitleFallback: string := "Sin título"
  const DescFallback: string := "Sin descripción"
  const ChannelFallback: string := "Desconocido"

  /** The placeholder link of every item; the guide has no link per programme. */
  const PlaceholderLink: string := "https://tvguide.myjcom.jp/"

  /** The length of the `YYYYMMDDHHMMSS` part of a `start` attribute. */
  const StampLength: nat := 14

  /** What `+` appends for an undefined operand. */
  const Undefined: string := "undefined"

  /** One item of the feed. */
  datatype FeedItem = FeedItem(title: string, link: string, guid: string, pubDate: string, description: string)

  /** The runtime's date handling, outside this model, applied to the text handed to
      `new Date(...)`: `utc` stands for `toUTCString()` of that date, `local` for its
      `toLocaleString('ja-JP', ...)` in the Asia/Tokyo time zone after the shift by
      zero hours. */
  datatype DateRendering = DateRendering(utc: string -> string, local: string -> string)

  /** `p.$.start?.slice(0, 14)`: the first 14 characters of the start attribute (all of
      them when it is shorter), or undefined when the attribute is absent. */
  function StartStamp(attrs: Attributes): (r: Option<string>)
    ensures r.None? <==> attrs.start.None?
    ensures r.Some? ==> |r.value| == (if |attrs.start.value| < StampLength then |attrs.start.value| else StampLength)
    ensures r.Some? ==> r.value == attrs.start.value[..|r.value|]
  {
    match attrs.start
    case None => None
    case Some(s) => Some(Slice(s, 0, StampLength))
  }

  /** The six date components sliced from fixed offsets of the stamp (lines 47-52). */
  datatype DateParts = DateParts(year: string, month: string, day: string, hour: string, minute: string, second: string)

  function Parts(stamp: string): (r: DateParts)
    ensures r.year + r.month + r.day + r.hour + r.minute + r.second == Slice(stamp, 0, StampLength)
    ensures |stamp| >= StampLength ==> r.year + r.month + r.day + r.hour + r.minute + r.second == stamp[..StampLength]
  {
    SliceAdjacent(stamp, 0, 4, 6);
    SliceAdjacent(stamp, 0, 6, 8);
    SliceAdjacent(stamp, 0, 8, 10);
    SliceAdjacent(stamp, 0, 10, 12);
    SliceAdjacent(stamp, 0, 12, 14);
    DateParts(Slice(stamp, 0, 4), Slice(stamp, 4, 6), Slice(stamp, 6, 8),
              Slice(stamp, 8, 10), Slice(stamp, 10, 12), Slice(stamp, 12, 14))
  }

  /** The text `${year}-${month}-${day}T${hour}:${minute}:${second}Z` of line 53. With
      components of full width it has the 20-character layout `YYYY-MM-DDTHH:MM:SSZ`. */
  function IsoText(d: DateParts): (r: string)
    ensures |d.year| == 4 && |d.month| == 2 && |d.day| == 2 && |d.hour| == 2 && |d.minute| == 2 && |d.second| == 2 ==>
      && |r| == 20
      && r[..4] == d.year && r[4] == '-' && r[5..7] == d.month && r[7] == '-' && r[8..10] == d.day
      && r[10] == 'T' && r[11..13] == d.hour && r[13] == ':' && r[14..16] == d.minute
      && r[16] == ':' && r[17..19] == d.second && r[19] == 'Z'
  {
    d.year + "-" + d.month + "-" + d.day + "T" + d.hour + ":" + d.minute + ":" + d.second + "Z"
  }

  /** The template of line 72: the clock mark and the displayed time labelled "(JST)",
      then the channel, then a blank line and the description. */
  function Description(jst: string, channel: string, desc: string): (r: string)
    ensures Includes(r, "⏰ " + jst + " (JST)") && Includes(r, channel) && Includes(r, desc)
    ensures EndsWith(r, "\n\n" + desc)
    ensures StartsWith(r, "⏰ " + jst + " (JST)  | 📺 Canal: ")
  {
    var head := "⏰ " + jst + " (JST)  | 📺 Canal: ";
    assert head == "⏰ " + jst + " (JST)" + "  | 📺 Canal: ";
    TemplateParts("⏰ " + jst + " (JST)", "  | 📺 Canal: ", channel, "\n\n", desc);
    assert StartsWith(head + channel + "\n\n" + desc, head);
    head + channel + "\n\n" + desc
  }

  /** A five-part concatenation includes its first, third and fifth parts and ends with
      its last two. */
  lemma TemplateParts(a: string, b: string, c: string, d: string, e: string)
    ensures Includes(a + b + c + d + e, a) && Includes(a + b + c + d + e, c) && Includes(a + b + c + d + e, e)
    ensures EndsWith(a + b + c + d + e, d + e)
  {
    var s := a + b + c + d + e;
    assert s == "" + a + (b + c + d + e);
    IncludesParts("", a, b + c + d + e);
    assert s == a + b + c + (d + e);
    IncludesParts(a + b, c, d + e);
    assert s == a + b + c + d + e + "";
    IncludesParts(a + b + c + d, e, "");
    assert s[|s| - |d + e|..] == d + e;
  }

  /** `title + start`: JavaScript writes an undefined `start` as `undefined`. */
  function Guid(title: string, stamp: Option<string>): (r: string)
    ensures |title| <= |r| && r[..|title|] == title
    ensures stamp.None? ==> r[|title|..] == Undefined
    ensures stamp.Some? ==> r[|title|..] == stamp.value
  {
    title + match stamp
            case None => Undefined
            case Some(s) => s
  }

  /** The callback of `limited.map(...)`, lines 37-74. Reading `p.$.channel` throws when
      the programme has no attributes; otherwise an item is always produced. */
  function Derive(p: Programme, dates: DateRendering): (r: Result<FeedItem, Error>)
    ensures r.Failure? <==> p.attrs.None?
    ensures r.Failure? ==> r.error == MissingAttributes
    ensures r.Success? ==> r.value.link == PlaceholderLink && r.value.title != ""
  {
    match p.attrs
    case None => Failure(MissingAttributes)
    case Some(attrs) =>
      var title := OrElse(First(p.titles), TitleFallback);
      var desc := OrElse(First(p.descs), DescFallback);
      var channel := OrElse(attrs.channel, ChannelFallback);
      var stamp := StartStamp(attrs);
      var known := stamp.Some? && stamp.value != "";
      var pubDate := if known then dates.utc(IsoText(Parts(stamp.value))) else "";
      var jst := if known then dates.local(IsoText(Parts(stamp.value))) else "";
      Success(FeedItem(title, PlaceholderLink, Guid(title, stamp), pubDate, Description(jst, channel, desc)))
  }

  /** `limited.map(...)`: one item per programme, in order, or the failure of the first
      programme that has no attributes. */
  function DeriveAll(ps: seq<Programme>, dates: DateRendering): (r: Result<seq<FeedItem>, Error>)
    ensures r.Success? <==> forall i :: 0 <= i < |ps| ==> ps[i].attrs.Some?
    ensures r.Failure? ==> r.error == MissingAttributes
    ensures r.Success? ==> |r.value| == |ps|
    ensures r.Success? ==> forall i :: 0 <= i < |ps| ==> Derive(ps[i], dates) == Success(r.value[i])
    decreases |ps|
  {
    if ps == [] then Success([])
    else
      var item :- Derive(ps[0], dates);
      var rest :- DeriveAll(ps[1..], dates);
      Success([item] + rest)
  }

  /** The title is the first title when that is present and not empty, and
      "Sin título" otherwise. */
  lemma TitleRule(p: Programme, dates: DateRendering)
    requires p.attrs.Some?
    ensures p.titles != [] && p.titles[0] != "" ==> Derive(p, dates).value.title == p.titles[0]
    ensures p.titles == [] || p.titles[0] == "" ==> Derive(p, dates).value.title == TitleFallback
  {
  }

  /** The description is the line-72 template filled in: the displayed time (empty
      without a start stamp), the channel or "Desconocido" when the channel attribute is
      absent or empty, and the first description or "Sin descripción" when that is
      absent or empty. So it names the channel and ends with a blank line followed by
      the description. */
  lemma DescriptionRule(p: Programme, dates: DateRendering)
    requires p.attrs.Some?
    ensures var stamp := StartStamp(p.attrs.value);
      var jst := if stamp.Some? && stamp.value != "" then dates.local(IsoText(Parts(stamp.value))) else "";
      Derive(p, dates).value.description
        == "⏰ " + jst + " (JST)  | 📺 Canal: " + OrElse(p.attrs.value.channel, "Desconocido") + "\n\n" + OrElse(First(p.descs), "Sin descripción")
    ensures var d := Derive(p, dates).value.description;
      && (p.attrs.value.channel.Some? && p.attrs.value.channel.value != "" ==> Includes(d, p.attrs.value.channel.value))
      && (p.attrs.value.channel.None? || p.attrs.value.channel.value == "" ==> Includes(d, ChannelFallback))
      && (p.descs != [] && p.descs[0] != "" ==> EndsWith(d, "\n\n" + p.descs[0]))
      && (p.descs == [] || p.descs[0] == "" ==> EndsWith(d, "\n\n" + DescFallback))
      && (p.descs != [] && p.descs[0] != "" ==> Includes(d, p.descs[0]))
  {
    var attrs := p.attrs.value;
    var stamp := StartStamp(attrs);
    var known := stamp.Some? && stamp.value != "";
    var jst := if known then dates.local(IsoText(Parts(stamp.value))) else "";
    var channel := OrElse(attrs.channel, ChannelFallback);
    var desc := OrElse(First(p.descs), DescFallback);
    var d := Description(jst, channel, desc);
    assert Derive(p, dates).value.description == d;
  }

  /** The guid is the title directly followed by the 14-character stamp, or by
      `undefined` when the programme has no start attribute. */
  lemma GuidRule(p: Programme, dates: DateRendering)
    requires p.attrs.Some?
    ensures var it := Derive(p, dates).value;
      p.attrs.value.start.Some? ==> it.guid == it.title + p.attrs.value.start.value[..|StartStamp(p.attrs.value).value|]
    ensures var it := Derive(p, dates).value;
      p.attrs.value.start.None? ==> it.guid == it.title + "undefined"
  {
  }

  /** The six components are the clamped slices [0,4), [4,6), [6,8), [8,10), [10,12)
      and [12,14) of the stamp, whatever its length: a short stamp leaves the later
      components short or empty. With a complete stamp they have 4, 2, 2, 2, 2 and 2
      characters and together spell out the stamp. */
  lemma PartsSpellStamp(stamp: string)
    ensures var d := Parts(stamp);
      && d.year == Slice(stamp, 0, 4) && d.month == Slice(stamp, 4, 6) && d.day == Slice(stamp, 6, 8)
      && d.hour == Slice(stamp, 8, 10) && d.minute == Slice(stamp, 10, 12) && d.second == Slice(stamp, 12, 14)
    ensures var d := Parts(stamp);
      |stamp| >= StampLength ==>
      && d.year == stamp[0..4] && d.month == stamp[4..6] && d.day == stamp[6..8]
      && d.hour == stamp[8..10] && d.minute == stamp[10..12] && d.second == stamp[12..14]
      && d.year + d.month + d.day + d.hour + d.minute + d.second == stamp[..StampLength]
  {
  }

  /** When the start attribute is absent or empty, the item is still produced, with an
      empty `pubDate` and nothing between the clock mark and the "(JST)" label. */
  lemma NoStartNoDates(p: Programme, dates: DateRendering)
    requires p.attrs.Some?
    requires p.attrs.value.start.None? || p.attrs.value.start.value == ""
    ensures Derive(p, dates).Success?
    ensures var it := Derive(p, dates).value;
      && it.pubDate == ""
      && it.description[..|"⏰  (JST)  | "|] == "⏰  (JST)  | "
  {
  }

  /** When the stamp is not empty, `pubDate` and the displayed time are the runtime's
      renderings of the date the stamp's components spell out. */
  lemma StartDates(p: Programme, dates: DateRendering)
    requires p.attrs.Some? && p.attrs.value.start.Some? && p.attrs.value.start.value != ""
    ensures var it := Derive(p, dates).value;
      var iso := IsoText(Parts(StartStamp(p.attrs.value).value));
      var head := "⏰ " + dates.local(iso) + " (JST)";
      && it.pubDate == dates.utc(iso)
      && |head| <= |it.description| && it.description[..|head|] == head
  {
  }

  /** The start attribute `20240315090000+0900` yields the stamp `20240315090000`, the
      date text `2024-03-15T09:00:00Z` (read as UTC, the `+0900` suffix dropped), and
      that date's UTC rendering as `pubDate`. */
  lemma StartExample(titles: seq<string>, descs: seq<string>, channel: Option<string>, dates: DateRendering)
    ensures var attrs := Attributes(channel, Some("20240315090000+0900"));
      && StartStamp(attrs) == Some("20240315090000")
      && IsoText(Parts("20240315090000")) == "2024-03-15T09:00:00Z"
      && Derive(Programme(Some(attrs), titles, descs), dates).value.pubDate == dates.utc("2024-03-15T09:00:00Z")
  {
    ExampleStamp();
    ExampleParts();
  }

  /** A start attribute of only eight characters, `20240315`, is kept whole; its slices
      give year `2024`, month `03`, day `15` and empty hour, minute and second, so the
      date text handed to the runtime is `2024-03-15T::Z`. */
  lemma ShortStampExample(channel: Option<string>)
    ensures StartStamp(Attributes(channel, Some("20240315"))) == Some("20240315")
    ensures Parts("20240315") == DateParts("2024", "03", "15", "", "", "")
    ensures IsoText(Parts("20240315")) == "2024-03-15T::Z"
  {
    var stamp := "20240315";
    assert Slice(stamp, 0, StampLength) == stamp[0..8] == stamp;
    assert Slice(stamp, 0, 4) == "2024" && Slice(stamp, 4, 6) == "03" && Slice(stamp, 6, 8) == "15";
  }

  /** The stamp part of `StartExample`, kept apart so each proof stays small. */
  lemma ExampleStamp()
    ensures Slice("20240315090000+0900", 0, StampLength) == "20240315090000"
  {
  }

  /** The date-text part of `StartExample`. */
  lemma ExampleParts()
    ensures IsoText(Parts("20240315090000")) == "2024-03-15T09:00:00Z"
  {
  }
}
