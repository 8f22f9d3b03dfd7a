/**
 * The XMLTV side of EPG processing (backend/src/processing/parser/xmltv.rs):
 * country-prefix splitting of channel names, building tag trees from a
 * stream of start/end/text events on an explicit stack, merging guides and
 * flattening several guides into one by channel priority.
 *
 * XML reading itself is outside the model: events arrive already decoded,
 * with their attributes as key/value pairs.
 */
module Xmltv {
  import opened Wrappers
  import Text
  import Seqs

  const EPG_TAG_TV := "tv"
  const EPG_TAG_CHANNEL := "channel"
  const EPG_TAG_PROGRAMME := "programme"
  const EPG_ATTRIB_ID := "id"
  const EPG_ATTRIB_CHANNEL := "channel"

  datatype XmlTag = XmlTag(
    name: string,
    value: Option<string>,
    attributes: Option<map<string, string>>,
    children: Option<seq<XmlTag>>)

  datatype Epg = Epg(
    logoOverride: bool,
    priority: int,
    attributes: Option<map<string, string>>,
    children: seq<XmlTag>)

  datatype EpgNamePrefix = Ignore | Suffix(sep: string) | Prefix(sep: string)

  /** `XmlTag::get_attribute_value` */
  function AttrValue(tag: XmlTag, key: string): Option<string> {
    if tag.attributes.Some? && key in tag.attributes.value then Some(tag.attributes.value[key]) else None
  }

  // ---------------------------------------------------------------------
  // Channel-name prefixes
  // ---------------------------------------------------------------------

  /** `content` cut at the first occurrence of `d`: the trimmed text before it and the trimmed text after it. */
  function Candidate(content: string, d: char): (r: Option<(string, string)>)
    ensures r.None? <==> d !in content
    ensures r.Some? ==> Text.IsTrimmed(r.value.0) && Text.IsTrimmed(r.value.1) && Text.Trim(r.value.1) == r.value.1
  {
    var found := Text.Find(content, d);
    if found.None? then None
    else
      Text.TrimSpec(content[..found.value]);
      Text.TrimSpec(content[found.value + 1..]);
      Text.TrimIdempotent(content[found.value + 1..]);
      Some((Text.Trim(content[..found.value]), Text.Trim(content[found.value + 1..])))
  }

  /** `content` split at the first occurrence of `d`, both sides trimmed. */
  predicate SplitAt(content: string, d: char, prefix: string, rest: string) {
    Candidate(content, d) == Some((prefix, rest))
  }

  /** Splitting at the first `d` leaves a known country code before it and non-blank text after it. */
  predicate Qualifies(content: string, d: char, countryCodes: set<string>) {
    var c := Candidate(content, d);
    c.Some? && c.value.1 != [] && c.value.0 in countryCodes
  }

  /** Tries the delimiters in order on `content`; `input` is what a miss returns. */
  function SplitFrom(input: string, content: string, delimiters: seq<char>, countryCodes: set<string>)
    : (r: (Option<string>, string))
    ensures r.0.None? ==> r.1 == input
    ensures r.0.Some? ==> r.0.value in countryCodes && r.1 != [] && Text.IsTrimmed(r.0.value) && Text.IsTrimmed(r.1)
    decreases |delimiters|
  {
    if delimiters == [] then (None, input)
    else if Qualifies(content, delimiters[0], countryCodes) then
      var c := Candidate(content, delimiters[0]).value;
      (Some(c.0), Text.Trim(c.1))
    else SplitFrom(input, content, delimiters[1..], countryCodes)
  }

  /** The first delimiter is tried first: it decides the split when it qualifies, the rest otherwise. */
  lemma SplitFromHead(input: string, content: string, delimiters: seq<char>, countryCodes: set<string>)
    requires delimiters != []
    ensures var r := SplitFrom(input, content, delimiters, countryCodes);
      && (Qualifies(content, delimiters[0], countryCodes) ==>
            r.0.Some? && SplitAt(content, delimiters[0], r.0.value, r.1))
      && (!Qualifies(content, delimiters[0], countryCodes) ==>
            r == SplitFrom(input, content, delimiters[1..], countryCodes))
  {
  }

  /** The split is the one at the first qualifying delimiter, and there is none when no delimiter qualifies. */
  lemma {:induction false} SplitFromFirst(input: string, content: string, ds: seq<char>, countryCodes: set<string>, p: char -> bool)
    requires forall d :: p(d) == Qualifies(content, d, countryCodes)
    ensures var r := SplitFrom(input, content, ds, countryCodes);
      var f := Seqs.First(ds, p);
      && (f.None? ==> r == (None, input))
      && (f.Some? ==> r.0.Some? && SplitAt(content, ds[f.value], r.0.value, r.1))
    decreases |ds|
  {
    if ds != [] {
      SplitFromHead(input, content, ds, countryCodes);
      if !p(ds[0]) {
        SplitFromFirst(input, content, ds[1..], countryCodes, p);
        Seqs.FirstTail(ds, p);
        var f := Seqs.First(ds[1..], p);
        if f.Some? {
          assert ds[1..][f.value] == ds[f.value + 1];
        }
      }
    }
  }

  /**
   * `split_by_first_match`: after skipping leading non-alphanumerics, the
   * first delimiter (in the given order) whose split leaves a known country
   * code before it and a non-empty rest after it; otherwise the input as it is.
   */
  function SplitByFirstMatch(input: string, delimiters: seq<char>, countryCodes: set<string>)
    : (r: (Option<string>, string))
    ensures r.0.None? ==> r.1 == input
    ensures r.0.Some? ==> r.0.value in countryCodes && r.1 != [] && Text.IsTrimmed(r.0.value) && Text.IsTrimmed(r.1)
  {
    SplitFrom(input, Text.TrimStartNonAlphanumeric(input), delimiters, countryCodes)
  }

  /**
   * `split_by_first_match` finds a prefix exactly when some delimiter qualifies, and
   * then splits at the first delimiter, in the given order, that qualifies.
   */
  lemma SplitByFirstMatchWitness(input: string, delimiters: seq<char>, countryCodes: set<string>)
    ensures var content := Text.TrimStartNonAlphanumeric(input);
      var r := SplitByFirstMatch(input, delimiters, countryCodes);
      && (r.0.Some? <==> exists k | 0 <= k < |delimiters| :: Qualifies(content, delimiters[k], countryCodes))
      && (r.0.Some? ==> exists i | 0 <= i < |delimiters| :: SplitAt(content, delimiters[i], r.0.value, r.1)
                          && Qualifies(content, delimiters[i], countryCodes)
                          && forall j | 0 <= j < i :: !Qualifies(content, delimiters[j], countryCodes))
  {
    var content := Text.TrimStartNonAlphanumeric(input);
    var p := d => Qualifies(content, d, countryCodes);
    SplitFromFirst(input, content, delimiters, countryCodes, p);
    Seqs.FirstSpec(delimiters, p);
    var f := Seqs.First(delimiters, p);
    if f.Some? {
      assert Qualifies(content, delimiters[f.value], countryCodes);
    }
  }

  /** A name containing none of the delimiters has no prefix and comes back as given. */
  lemma {:induction false} SplitFromAbsent(input: string, content: string, delimiters: seq<char>, countryCodes: set<string>)
    requires forall k | 0 <= k < |delimiters| :: delimiters[k] !in content
    ensures SplitFrom(input, content, delimiters, countryCodes) == (None, input)
    decreases |delimiters|
  {
    if delimiters != [] {
      SplitFromAbsent(input, content, delimiters[1..], countryCodes);
    }
  }

  /** `name_prefix`: the name without its country prefix, and the prefix, unless prefixes are ignored or none is found. */
  function NamePrefix(name: string, mode: EpgNamePrefix, separators: seq<char>, countryCodes: set<string>)
    : (r: (string, Option<string>))
    ensures mode.Ignore? ==> r == (name, None)
    ensures r.1.None? ==> r.0 == name
    ensures r.1.Some? ==> r.1.value in countryCodes && r.0 != []
    ensures r.1.Some? <==> !mode.Ignore? && SplitByFirstMatch(name, separators, countryCodes).0.Some?
    ensures r.1.Some? ==> SplitByFirstMatch(name, separators, countryCodes) == (r.1, r.0)
  {
    if !mode.Ignore? then
      var split := SplitByFirstMatch(name, separators, countryCodes);
      if split.0.Some? then (split.1, split.0) else (name, None)
    else (name, None)
  }

  /** `combine`: the two parts joined by a dot; the configured separator is not used. */
  method Combine(join: string, left: string, right: string) returns (combined: string)
    ensures combined == left + "." + right
    ensures |combined| == |left| + 1 + |right| && combined[|left|] == '.'
  {
    combined := [];
    combined := combined + left;
    combined := combined + ['.'];
    combined := combined + right;
  }

  // ---------------------------------------------------------------------
  // Guides
  // ---------------------------------------------------------------------

  /** All children of the guides, guide after guide. */
  function AllChildren(epgs: seq<Epg>): seq<XmlTag> {
    if epgs == [] then [] else AllChildren(epgs[..|epgs| - 1]) + epgs[|epgs| - 1].children
  }

  /** Every child of every guide is among the merged children, and nothing else is. */
  lemma {:induction false} AllChildrenMembers(epgs: seq<Epg>)
    ensures |AllChildren(epgs)| == ChildCount(epgs)
    ensures forall i, c | 0 <= i < |epgs| && c in epgs[i].children :: c in AllChildren(epgs)
    ensures forall c | c in AllChildren(epgs) :: exists i | 0 <= i < |epgs| :: c in epgs[i].children
  {
    if epgs != [] {
      var init := epgs[..|epgs| - 1];
      AllChildrenMembers(init);
      assert forall i | 0 <= i < |init| :: init[i] == epgs[i];
    }
  }

  function ChildCount(epgs: seq<Epg>): nat {
    if epgs == [] then 0 else ChildCount(epgs[..|epgs| - 1]) + |epgs[|epgs| - 1].children|
  }

  /** `TVGuide::merge`: the first guide's attributes and everybody's children; nothing for no guides. */
  function Merge(epgs: seq<Epg>): (r: Option<Epg>)
    ensures r.None? <==> epgs == []
    ensures r.Some? ==> r.value.attributes == epgs[0].attributes && r.value.priority == 0 && !r.value.logoOverride
    ensures r.Some? ==> r.value.children == AllChildren(epgs)
  {
    if epgs == [] then None else Some(Epg(false, 0, epgs[0].attributes, AllChildren(epgs)))
  }

  predicate SortedByPriority(epgs: seq<Epg>) {
    forall i, j | 0 <= i < j < |epgs| :: epgs[i].priority <= epgs[j].priority
  }

  /** Places `g` after every guide whose priority is not larger. */
  function InsertByPriority(sorted: seq<Epg>, g: Epg): (r: seq<Epg>)
    ensures |r| == |sorted| + 1
    decreases |sorted|
  {
    if sorted == [] || sorted[|sorted| - 1].priority <= g.priority then sorted + [g]
    else InsertByPriority(sorted[..|sorted| - 1], g) + [sorted[|sorted| - 1]]
  }

  /** Insertion adds exactly `g`. */
  lemma {:induction false} InsertByPriorityPermutes(sorted: seq<Epg>, g: Epg)
    ensures multiset(InsertByPriority(sorted, g)) == multiset(sorted) + multiset{g}
    decreases |sorted|
  {
    if !(sorted == [] || sorted[|sorted| - 1].priority <= g.priority) {
      var init, last := sorted[..|sorted| - 1], sorted[|sorted| - 1];
      assert sorted == init + [last];
      InsertByPriorityPermutes(init, g);
    }
  }

  /** Insertion into a sorted run keeps it sorted. */
  lemma {:induction false} InsertByPrioritySorted(sorted: seq<Epg>, g: Epg)
    requires SortedByPriority(sorted)
    ensures SortedByPriority(InsertByPriority(sorted, g))
    decreases |sorted|
  {
    if !(sorted == [] || sorted[|sorted| - 1].priority <= g.priority) {
      var init, last := sorted[..|sorted| - 1], sorted[|sorted| - 1];
      var r0 := InsertByPriority(init, g);
      InsertByPrioritySorted(init, g);
      InsertByPriorityPermutes(init, g);
      forall i | 0 <= i < |r0| ensures r0[i].priority <= last.priority {
        assert r0[i] in multiset(r0);
        if r0[i] != g {
          assert r0[i] in multiset(init);
          var j :| 0 <= j < |init| && init[j] == r0[i];
          assert sorted[j] == init[j];
        }
      }
    }
  }

  /** `sort_by(priority)`, a stable sort: ascending priority, same guides. */
  function SortByPriority(epgs: seq<Epg>): (r: seq<Epg>)
    ensures SortedByPriority(r) && multiset(r) == multiset(epgs) && |r| == |epgs|
  {
    if epgs == [] then []
    else
      var init := epgs[..|epgs| - 1];
      assert epgs == init + [epgs[|epgs| - 1]];
      InsertByPrioritySorted(SortByPriority(init), epgs[|epgs| - 1]);
      InsertByPriorityPermutes(SortByPriority(init), epgs[|epgs| - 1]);
      InsertByPriority(SortByPriority(init), epgs[|epgs| - 1])
  }

  // ---------------------------------------------------------------------
  // Attributes and tag kinds
  // ---------------------------------------------------------------------

  /** `get_tag_types`: (tv, channel, programme). */
  function GetTagTypes(name: string): (r: (bool, bool, bool))
    ensures r.0 <==> name == EPG_TAG_TV
    ensures r.1 <==> name == EPG_TAG_CHANNEL
    ensures r.2 <==> name == EPG_TAG_PROGRAMME
  {
    if name == EPG_TAG_TV then (true, false, false)
    else if name == EPG_TAG_CHANNEL then (false, true, false)
    else if name == EPG_TAG_PROGRAMME then (false, false, true)
    else (false, false, false)
  }

  /** A channel's id and a programme's channel are compared in lower case. */
  function NormalizeAttribute(key: string, value: string, isChannel: bool, isProgram: bool): string {
    if (isChannel && key == EPG_ATTRIB_ID) || (isProgram && key == EPG_ATTRIB_CHANNEL) then Text.LowerAscii(value)
    else value
  }

  /**
   * `collect_tag_attributes`: the normalised attributes with a non-empty
   * value. The pairs are the attributes as the XML reader yields them, whose
   * keys are assumed distinct.
   */
  function CollectTagAttributes(attrs: seq<(string, string)>, isChannel: bool, isProgram: bool)
    : (r: map<string, string>)
    ensures forall k | k in r :: r[k] != []
    ensures forall k | k in r :: exists i | 0 <= i < |attrs| ::
      attrs[i].0 == k && r[k] == NormalizeAttribute(k, attrs[i].1, isChannel, isProgram)
    ensures forall i | 0 <= i < |attrs| :: attrs[i].1 != [] ==> attrs[i].0 in r
    ensures isChannel && EPG_ATTRIB_ID in r ==> Text.LowerAscii(r[EPG_ATTRIB_ID]) == r[EPG_ATTRIB_ID]
    ensures isProgram && EPG_ATTRIB_CHANNEL in r ==> Text.LowerAscii(r[EPG_ATTRIB_CHANNEL]) == r[EPG_ATTRIB_CHANNEL]
  {
    if attrs == [] then map[]
    else
      var init := attrs[..|attrs| - 1];
      var (k, v) := attrs[|attrs| - 1];
      var m := CollectTagAttributes(init, isChannel, isProgram);
      var value := NormalizeAttribute(k, v, isChannel, isProgram);
      assert forall i | 0 <= i < |init| :: init[i] == attrs[i];
      LowerAsciiIdempotent(v);
      if value == [] then m else m[k := value]
  }

  lemma LowerAsciiIdempotent(s: string)
    ensures Text.LowerAscii(Text.LowerAscii(s)) == Text.LowerAscii(s)
  {
  }

  // ---------------------------------------------------------------------
  // The tag stack
  // ---------------------------------------------------------------------

  /** The tags the builder hands to its callback: the `tv` root, channels with an id, programmes with a channel. */
  predicate Emittable(tag: XmlTag) {
    tag.name == EPG_TAG_TV
    || (tag.name == EPG_TAG_CHANNEL && AttrValue(tag, EPG_ATTRIB_ID).Some? && AttrValue(tag, EPG_ATTRIB_ID).value != [])
    || (tag.name == EPG_TAG_PROGRAMME && AttrValue(tag, EPG_ATTRIB_CHANNEL).Some?
        && AttrValue(tag, EPG_ATTRIB_CHANNEL).value != [])
  }

  /** `XmlTag::new` with the collected attributes, absent when there are none. */
  function NewTag(name: string, attrs: seq<(string, string)>): (t: XmlTag)
    ensures t.name == name && t.value.None? && t.children.None?
  {
    var types := GetTagTypes(name);
    var attributes := CollectTagAttributes(attrs, types.1, types.2);
    XmlTag(name, None, if attributes == map[] then None else Some(attributes), None)
  }

  /** `parent` with `tag` appended as its last child. */
  function AddChild(parent: XmlTag, tag: XmlTag): (r: XmlTag)
    ensures r.name == parent.name && r.value == parent.value && r.attributes == parent.attributes
    ensures r.children.Some? && |r.children.value| > 0 && r.children.value[|r.children.value| - 1] == tag
    ensures r.children.value[..|r.children.value| - 1] == parent.children.GetOr([])
  {
    parent.(children := Some(match parent.children case None => [tag] case Some(tags) => tags + [tag]))
  }

  /** The input events of the builder. */
  datatype XmlEvent =
    | Start(tagName: string, attrs: seq<(string, string)>)
    | Empty(emptyName: string, emptyAttrs: seq<(string, string)>)
    | End
    | Text(text: string)

  /** The builder's state: the open tags, innermost last, and the tags handed to the callback so far. */
  datatype BuilderState = BuilderState(stack: seq<XmlTag>, emitted: seq<XmlTag>)

  /** Only emittable tags reach the callback, and a `tv` tag is never on the stack. */
  predicate ValidState(st: BuilderState) {
    (forall i | 0 <= i < |st.emitted| :: Emittable(st.emitted[i]))
    && (forall i | 0 <= i < |st.stack| :: st.stack[i].name != EPG_TAG_TV)
  }

  /** `handle_tag_start` on a state: a `tv` tag goes straight to the callback, any other tag onto the stack. */
  function StartStep(st: BuilderState, name: string, attrs: seq<(string, string)>): BuilderState {
    var tag := NewTag(name, attrs);
    if name == EPG_TAG_TV then st.(emitted := st.emitted + [tag]) else st.(stack := st.stack + [tag])
  }

  /**
   * `handle_tag_end` on a state: pops the top tag. A channel or programme
   * goes to the callback when it names its channel and is dropped otherwise;
   * any other tag becomes the last child of the tag below it, or is dropped
   * when there is none.
   */
  function EndStep(st: BuilderState): BuilderState {
    if st.stack == [] then st
    else
      var n := |st.stack|;
      var tag := st.stack[n - 1];
      if tag.name == EPG_TAG_CHANNEL || tag.name == EPG_TAG_PROGRAMME then
        BuilderState(st.stack[..n - 1], st.emitted + (if Emittable(tag) then [tag] else []))
      else if n > 1 then
        BuilderState(st.stack[..n - 2] + [AddChild(st.stack[n - 2], tag)], st.emitted)
      else
        BuilderState([], st.emitted)
  }

  /** `handle_text_tag` on a state: non-blank text becomes the trimmed value of the top tag. */
  function TextStep(st: BuilderState, text: string): BuilderState {
    var t := Text.Trim(text);
    if st.stack == [] || t == [] then st
    else
      var n := |st.stack|;
      st.(stack := st.stack[n - 1 := st.stack[n - 1].(value := Some(t))])
  }

  /** One event of `parse_tvguide`; an empty element is a start directly followed by its end. */
  function Step(st: BuilderState, ev: XmlEvent): BuilderState {
    match ev
    case Start(name, attrs) => StartStep(st, name, attrs)
    case Empty(name, attrs) => EndStep(StartStep(st, name, attrs))
    case End => EndStep(st)
    case Text(text) => TextStep(st, text)
  }

  /** The state after feeding `events`, in order, to a builder in state `st`. */
  function RunFrom(st: BuilderState, events: seq<XmlEvent>): BuilderState
    decreases |events|
  {
    if events == [] then st else RunFrom(Step(st, events[0]), events[1..])
  }

  /** Every event keeps the builder valid. */
  lemma StepValid(st: BuilderState, ev: XmlEvent)
    requires ValidState(st)
    ensures ValidState(Step(st, ev))
  {
    match ev
    case Start(name, attrs) => StartValid(st, name, attrs);
    case Empty(name, attrs) => StartValid(st, name, attrs); EndValid(StartStep(st, name, attrs));
    case End => EndValid(st);
    case Text(text) => TextValid(st, text);
  }

  lemma StartValid(st: BuilderState, name: string, attrs: seq<(string, string)>)
    requires ValidState(st)
    ensures ValidState(StartStep(st, name, attrs))
  {
  }

  lemma TextValid(st: BuilderState, text: string)
    requires ValidState(st)
    ensures ValidState(TextStep(st, text))
  {
    var r := TextStep(st, text);
    assert r.emitted == st.emitted && |r.stack| == |st.stack|;
    assert forall i | 0 <= i < |r.stack| :: r.stack[i].name == st.stack[i].name;
  }

  lemma EndValid(st: BuilderState)
    requires ValidState(st)
    ensures ValidState(EndStep(st))
  {
    var n := |st.stack|;
    if n > 1 {
      var tag := st.stack[n - 1];
      if tag.name != EPG_TAG_CHANNEL && tag.name != EPG_TAG_PROGRAMME {
        var s := st.stack[..n - 2] + [AddChild(st.stack[n - 2], tag)];
        assert forall i | 0 <= i < n - 2 :: s[i] == st.stack[i];
      }
    }
  }

  /**
   * Whatever the events, a valid builder stays valid: the callback only ever
   * receives `tv` tags, channels with an id and programmes with a channel,
   * and what it has received is never taken back.
   */
  lemma {:induction false} RunFromValid(st: BuilderState, events: seq<XmlEvent>)
    requires ValidState(st)
    ensures ValidState(RunFrom(st, events))
    ensures st.emitted <= RunFrom(st, events).emitted
    decreases |events|
  {
    if events != [] {
      var next := Step(st, events[0]);
      StepValid(st, events[0]);
      assert st.emitted <= next.emitted by {
        match events[0]
        case Start(name, attrs) =>
        case Empty(name, attrs) =>
          assert StartStep(st, name, attrs).emitted <= next.emitted;
        case End =>
        case Text(text) =>
      }
      RunFromValid(next, events[1..]);
    }
  }

  /** A builder that collects the tags its callback is given. */
  class TagStack {
    var stack: seq<XmlTag>
    var emitted: seq<XmlTag>

    function State(): BuilderState
      reads this
    {
      BuilderState(stack, emitted)
    }

    predicate Valid()
      reads this
    {
      ValidState(State())
    }

    constructor ()
      ensures State() == BuilderState([], []) && Valid()
    {
      stack := [];
      emitted := [];
    }

    /** `handle_tag_start`: a `tv` tag goes straight to the callback, any other tag onto the stack. */
    method HandleTagStart(name: string, attrs: seq<(string, string)>)
      requires Valid()
      modifies this
      ensures Valid()
      ensures State() == StartStep(old(State()), name, attrs)
      ensures name == EPG_TAG_TV ==> stack == old(stack) && emitted == old(emitted) + [NewTag(name, attrs)]
      ensures name != EPG_TAG_TV ==> stack == old(stack) + [NewTag(name, attrs)] && emitted == old(emitted)
    {
      var tag := NewTag(name, attrs);
      if name == EPG_TAG_TV {
        emitted := emitted + [tag];
      } else {
        stack := stack + [tag];
      }
    }

    /**
     * `handle_tag_end`: pops the top tag. A channel or programme goes to the
     * callback when it names its channel and is dropped otherwise; any other
     * tag becomes the last child of the tag below it, or is dropped when
     * there is none.
     */
    method HandleTagEnd()
      requires Valid()
      modifies this
      ensures Valid()
      ensures State() == EndStep(old(State()))
      ensures old(stack) == [] ==> stack == [] && emitted == old(emitted)
      ensures old(stack) != [] ==> |stack| == |old(stack)| - 1
    {
      EndValid(State());
      if stack != [] {
        var tag := stack[|stack| - 1];
        stack := stack[..|stack| - 1];
        if tag.name == EPG_TAG_CHANNEL {
          var chanId := AttrValue(tag, EPG_ATTRIB_ID);
          if chanId.Some? && chanId.value != [] {
            emitted := emitted + [tag];
          }
        } else if tag.name == EPG_TAG_PROGRAMME {
          var chanId := AttrValue(tag, EPG_ATTRIB_CHANNEL);
          if chanId.Some? && chanId.value != [] {
            emitted := emitted + [tag];
          }
        } else if stack != [] {
          var parent := stack[|stack| - 1];
          stack := stack[..|stack| - 1];
          stack := stack + [AddChild(parent, tag)];
        }
      }
    }

    /** `handle_text_tag`: non-blank text becomes the trimmed value of the top tag. */
    method HandleTextTag(text: string)
      requires Valid()
      modifies this
      ensures Valid() && emitted == old(emitted)
      ensures State() == TextStep(old(State()), text)
    {
      TextValid(State(), text);
      if stack != [] {
        var t := Text.Trim(text);
        if t != [] {
          var top := stack[|stack| - 1];
          stack := stack[|stack| - 1 := top.(value := Some(t))];
        }
      }
    }

    /** One turn of the `parse_tvguide` loop; an empty element is a start directly followed by its end. */
    method HandleEvent(ev: XmlEvent)
      requires Valid()
      modifies this
      ensures Valid()
      ensures State() == Step(old(State()), ev)
    {
      match ev {
        case Start(name, attrs) => HandleTagStart(name, attrs);
        case Empty(name, attrs) =>
          HandleTagStart(name, attrs);
          HandleTagEnd();
        case End => HandleTagEnd();
        case Text(text) => HandleTextTag(text);
      }
    }
  }

  /** `parse_tvguide`: feeds the events, in order, to a fresh builder and returns what its callback collected. */
  method ParseTvGuide(events: seq<XmlEvent>) returns (emitted: seq<XmlTag>)
    ensures emitted == RunFrom(BuilderState([], []), events).emitted
    ensures forall i | 0 <= i < |emitted| :: Emittable(emitted[i])
  {
    var builder := new TagStack();
    var i := 0;
    while i < |events|
      invariant 0 <= i <= |events|
      invariant builder.Valid()
      invariant RunFrom(builder.State(), events[i..]) == RunFrom(BuilderState([], []), events)
      modifies builder
    {
      assert events[i..][0] == events[i] && events[i..][1..] == events[i + 1..];
      builder.HandleEvent(events[i]);
      i := i + 1;
    }
    assert events[i..] == [];
    emitted := builder.emitted;
  }

  // ---------------------------------------------------------------------
  // Flattening several guides into one
  // ---------------------------------------------------------------------

  /** The id of a channel tag that has one. */
  function ChannelId(c: XmlTag): Option<string> {
    if c.name == EPG_TAG_CHANNEL then AttrValue(c, EPG_ATTRIB_ID) else None
  }

  /** The channel a programme tag refers to, when it names one. */
  function ProgrammeChannel(c: XmlTag): Option<string> {
    if c.name == EPG_TAG_PROGRAMME then AttrValue(c, EPG_ATTRIB_CHANNEL) else None
  }

  /** The channel ids of the channel tags among `cs`, in order. */
  function ChannelIds(cs: seq<XmlTag>): seq<string> {
    if cs == [] then []
    else
      var last := cs[|cs| - 1];
      ChannelIds(cs[..|cs| - 1]) + (if ChannelId(last).Some? then [ChannelId(last).value] else [])
  }

  predicate NoDuplicates(s: seq<string>) {
    forall i, j | 0 <= i < j < |s| :: s[i] != s[j]
  }

  /** Every programme among `cs` refers to one of `channels`. */
  predicate ProgrammesCovered(cs: seq<XmlTag>, channels: set<string>) {
    forall k | 0 <= k < |cs| && ProgrammeChannel(cs[k]).Some? :: ProgrammeChannel(cs[k]).value in channels
  }

  /** The children collected so far and the priority stored per channel id. */
  datatype FoldState = FoldState(children: seq<XmlTag>, mapping: map<string, int>)

  /** A channel is taken when its id is new or its guide has a smaller priority than the stored one. */
  function ChannelStep(st: FoldState, c: XmlTag, priority: int): FoldState {
    if ChannelId(c).Some? then
      var id := ChannelId(c).value;
      if id !in st.mapping || priority < st.mapping[id] then FoldState(st.children + [c], st.mapping[id := priority])
      else st
    else st
  }

  /** A programme is taken when its channel is stored with its guide's priority. */
  function ProgrammeStep(st: FoldState, c: XmlTag, priority: int): FoldState {
    if ProgrammeChannel(c).Some? && ProgrammeChannel(c).value in st.mapping
       && st.mapping[ProgrammeChannel(c).value] == priority
    then FoldState(st.children + [c], st.mapping)
    else st
  }

  function ChannelPass(st: FoldState, cs: seq<XmlTag>, priority: int): FoldState {
    if cs == [] then st else ChannelStep(ChannelPass(st, cs[..|cs| - 1], priority), cs[|cs| - 1], priority)
  }

  function ProgrammePass(st: FoldState, cs: seq<XmlTag>, priority: int): FoldState {
    if cs == [] then st else ProgrammeStep(ProgrammePass(st, cs[..|cs| - 1], priority), cs[|cs| - 1], priority)
  }

  /** One guide: its channels first, then its programmes. */
  function GuideStep(st: FoldState, g: Epg): FoldState {
    ProgrammePass(ChannelPass(st, g.children, g.priority), g.children, g.priority)
  }

  /** The guides one after the other, in the given order. */
  function FoldGuides(gs: seq<Epg>): FoldState {
    if gs == [] then FoldState([], map[]) else GuideStep(FoldGuides(gs[..|gs| - 1]), gs[|gs| - 1])
  }

  /**
   * What `flatten_tvguide` returns: no guide for no input; otherwise the
   * first guide's attributes and the children the priority fold keeps.
   */
  function Flatten(tvGuides: seq<Epg>): (r: Option<Epg>)
    ensures r.None? <==> tvGuides == []
    ensures r.Some? ==> r.value.attributes == tvGuides[0].attributes && r.value.priority == 0 && !r.value.logoOverride
  {
    if tvGuides == [] then None
    else Some(Epg(false, 0, tvGuides[0].attributes, FoldGuides(SortByPriority(tvGuides)).children))
  }

  lemma FoldGuidesStep(gs: seq<Epg>, i: nat)
    requires i < |gs|
    ensures FoldGuides(gs[..i + 1]) == GuideStep(FoldGuides(gs[..i]), gs[i])
  {
    assert gs[..i + 1][..i] == gs[..i];
  }

  /** The first closure of `flatten_tvguide`: one guide's channels against the stored priorities. */
  method CollectChannels(guide: Epg, epgChildren: seq<XmlTag>, mapping0: map<string, int>)
    returns (children: seq<XmlTag>, channelMapping: map<string, int>)
    ensures FoldState(epgChildren + children, channelMapping)
      == ChannelPass(FoldState(epgChildren, mapping0), guide.children, guide.priority)
  {
    children := [];
    channelMapping := mapping0;
    var j := 0;
    while j < |guide.children|
      invariant 0 <= j <= |guide.children|
      invariant FoldState(epgChildren + children, channelMapping)
        == ChannelPass(FoldState(epgChildren, mapping0), guide.children[..j], guide.priority)
    {
      var c := guide.children[j];
      if c.name == EPG_TAG_CHANNEL {
        var chanId := AttrValue(c, EPG_ATTRIB_ID);
        if chanId.Some? {
          var shouldAdd := chanId.value !in channelMapping || guide.priority < channelMapping[chanId.value];
          if shouldAdd {
            if chanId.value !in channelMapping {
              channelMapping := channelMapping[chanId.value := guide.priority];
              children := children + [c];
            } else if guide.priority < channelMapping[chanId.value] {
              channelMapping := channelMapping[chanId.value := guide.priority];
              children := children + [c];
            }
          }
        }
      }
      assert guide.children[..j + 1][..j] == guide.children[..j];
      assert (epgChildren + children) + [c] == epgChildren + (children + [c]);
      j := j + 1;
    }
    assert guide.children[..j] == guide.children;
  }

  /** The second closure of `flatten_tvguide`: one guide's programmes whose channel it won. */
  method CollectProgrammes(guide: Epg, epgChildren: seq<XmlTag>, channelMapping: map<string, int>)
    returns (children: seq<XmlTag>)
    ensures FoldState(epgChildren + children, channelMapping)
      == ProgrammePass(FoldState(epgChildren, channelMapping), guide.children, guide.priority)
  {
    children := [];
    var j := 0;
    while j < |guide.children|
      invariant 0 <= j <= |guide.children|
      invariant FoldState(epgChildren + children, channelMapping)
        == ProgrammePass(FoldState(epgChildren, channelMapping), guide.children[..j], guide.priority)
    {
      var c := guide.children[j];
      if c.name == EPG_TAG_PROGRAMME {
        var chanId := AttrValue(c, EPG_ATTRIB_CHANNEL);
        if chanId.Some? && chanId.value in channelMapping {
          var storedPriority := channelMapping[chanId.value];
          if storedPriority == guide.priority {
            children := children + [c];
          }
        }
      }
      assert guide.children[..j + 1][..j] == guide.children[..j];
      assert (epgChildren + children) + [c] == epgChildren + (children + [c]);
      j := j + 1;
    }
    assert guide.children[..j] == guide.children;
  }

  /** `flatten_tvguide`, guide after guide in ascending priority. */
  method FlattenTvGuide(tvGuides: seq<Epg>) returns (r: Option<Epg>)
    ensures r == Flatten(tvGuides)
  {
    if tvGuides == [] {
      return None;
    }
    var epgChildren: seq<XmlTag> := [];
    var epgAttributes := tvGuides[0].attributes;
    var channelMapping: map<string, int> := map[];
    var sortedGuides := SortByPriority(tvGuides);
    assert sortedGuides[..0] == [];
    var g := 0;
    while g < |sortedGuides|
      invariant 0 <= g <= |sortedGuides|
      invariant FoldState(epgChildren, channelMapping) == FoldGuides(sortedGuides[..g])
    {
      var guide := sortedGuides[g];
      FoldGuidesStep(sortedGuides, g);
      var channels;
      channels, channelMapping := CollectChannels(guide, epgChildren, channelMapping);
      var programmes := CollectProgrammes(guide, epgChildren + channels, channelMapping);
      epgChildren := epgChildren + channels + programmes;
      g := g + 1;
    }
    assert sortedGuides[..g] == sortedGuides;
    r := Some(Epg(false, 0, epgAttributes, epgChildren));
  }

  // ---------------------------------------------------------------------
  // What flattening guarantees
  // ---------------------------------------------------------------------

  function Elems(s: seq<string>): set<string> {
    set x | x in s
  }

  /** The guide has a channel tag with this id. */
  predicate Offers(g: Epg, id: string) {
    id in ChannelIds(g.children)
  }

  lemma ChannelIdsAppend(cs: seq<XmlTag>, c: XmlTag)
    ensures ChannelIds(cs + [c]) == ChannelIds(cs) + (if ChannelId(c).Some? then [ChannelId(c).value] else [])
  {
    assert (cs + [c])[..|cs|] == cs;
  }

  /**
   * Within the fold: no channel id is kept twice, the kept ids are exactly
   * the stored ones, no stored priority exceeds `bound`, and every kept
   * programme refers to a kept channel.
   */
  ghost predicate PassInv(st: FoldState, bound: int) {
    && NoDuplicates(ChannelIds(st.children))
    && (forall id :: id in ChannelIds(st.children) <==> id in st.mapping)
    && (forall id | id in st.mapping :: st.mapping[id] <= bound)
    && ProgrammesCovered(st.children, st.mapping.Keys)
  }

  /** `next` stores the ids of `st` unchanged and exactly `ids` besides, with `priority`. */
  predicate Stores(st: FoldState, next: FoldState, ids: set<string>, priority: int) {
    && next.mapping.Keys == st.mapping.Keys + ids
    && (forall id | id in st.mapping :: next.mapping[id] == st.mapping[id])
    && (forall id | id in next.mapping && id !in st.mapping :: next.mapping[id] == priority)
  }

  lemma StoresTrans(a: FoldState, b: FoldState, c: FoldState, ids1: set<string>, ids2: set<string>, priority: int)
    requires Stores(a, b, ids1, priority) && Stores(b, c, ids2, priority)
    ensures Stores(a, c, ids1 + ids2, priority)
  {
  }

  /** A kept tag: a channel, or a programme of a channel, stored with priority `p`. */
  ghost predicate Kept(c: XmlTag, p: int, m: map<string, int>) {
    || (ChannelId(c).Some? && ChannelId(c).value in m && m[ChannelId(c).value] == p)
    || (ProgrammeChannel(c).Some? && ProgrammeChannel(c).value in m && m[ProgrammeChannel(c).value] == p)
  }

  /** `next` extends the children of `st` by tags of `cs` that are kept with `priority`. */
  ghost predicate Appended(st: FoldState, next: FoldState, cs: seq<XmlTag>, priority: int) {
    && |st.children| <= |next.children| && next.children[..|st.children|] == st.children
    && forall k | |st.children| <= k < |next.children| ::
      next.children[k] in cs && Kept(next.children[k], priority, next.mapping)
  }

  lemma AppendedTrans(a: FoldState, b: FoldState, c: FoldState, cs1: seq<XmlTag>, cs2: seq<XmlTag>,
                      cs: seq<XmlTag>, priority: int, ids: set<string>)
    requires Appended(a, b, cs1, priority) && Appended(b, c, cs2, priority) && Stores(b, c, ids, priority)
    requires forall x | x in cs1 || x in cs2 :: x in cs
    ensures Appended(a, c, cs, priority)
  {
    forall k | |a.children| <= k < |c.children|
      ensures c.children[k] in cs && Kept(c.children[k], priority, c.mapping)
    {
      if k < |b.children| {
        assert c.children[k] == c.children[..|b.children|][k] == b.children[k];
      }
    }
    assert c.children[..|a.children|] == c.children[..|b.children|][..|a.children|];
  }

  /** A channel step at a priority no smaller than any stored one adds only ids not stored yet. */
  lemma ChannelStepInv(st: FoldState, c: XmlTag, priority: int)
    requires PassInv(st, priority)
    ensures PassInv(ChannelStep(st, c, priority), priority)
    ensures Stores(st, ChannelStep(st, c, priority),
      Elems(if ChannelId(c).Some? then [ChannelId(c).value] else []), priority)
  {
    if ChannelId(c).Some? && ChannelId(c).value !in st.mapping {
      ChannelStepNew(st, c, ChannelId(c).value, priority);
    } else {
      assert ChannelStep(st, c, priority) == st;
    }
  }

  /** A channel with a new id is appended and its id stored. */
  lemma ChannelStepNew(st: FoldState, c: XmlTag, id: string, priority: int)
    requires PassInv(st, priority) && ChannelId(c) == Some(id) && id !in st.mapping
    ensures PassInv(FoldState(st.children + [c], st.mapping[id := priority]), priority)
    ensures Stores(st, FoldState(st.children + [c], st.mapping[id := priority]), Elems([id]), priority)
  {
    var next := FoldState(st.children + [c], st.mapping[id := priority]);
    ChannelIdsAppend(st.children, c);
    assert ChannelIds(next.children) == ChannelIds(st.children) + [id];
    NoDuplicatesAppend(ChannelIds(st.children), id);
    CoveredAppend(st.children, c, st.mapping.Keys, next.mapping.Keys);
  }

  lemma NoDuplicatesAppend(s: seq<string>, x: string)
    requires NoDuplicates(s) && x !in s
    ensures NoDuplicates(s + [x])
  {
  }

  /** Appending a tag that is not a programme keeps every programme covered by a larger set of channels. */
  lemma CoveredAppend(cs: seq<XmlTag>, c: XmlTag, channels: set<string>, more: set<string>)
    requires ProgrammesCovered(cs, channels) && channels <= more && ProgrammeChannel(c).None?
    ensures ProgrammesCovered(cs + [c], more)
  {
    forall k | 0 <= k < |cs + [c]| && ProgrammeChannel((cs + [c])[k]).Some?
      ensures ProgrammeChannel((cs + [c])[k]).value in more
    {
      assert (cs + [c])[k] == cs[k];
    }
  }

  /** A channel step appends at most its tag, stored with `priority`. */
  lemma ChannelStepAppended(st: FoldState, c: XmlTag, priority: int)
    ensures Appended(st, ChannelStep(st, c, priority), [c], priority)
  {
    var next := ChannelStep(st, c, priority);
    if next != st {
      assert next.children == st.children + [c];
      assert next.children[..|st.children|] == st.children;
      assert Kept(c, priority, next.mapping);
    }
  }

  lemma {:induction false} ChannelPassInv(st: FoldState, cs: seq<XmlTag>, priority: int)
    requires PassInv(st, priority)
    ensures PassInv(ChannelPass(st, cs, priority), priority)
    ensures Stores(st, ChannelPass(st, cs, priority), Elems(ChannelIds(cs)), priority)
    ensures Appended(st, ChannelPass(st, cs, priority), cs, priority)
  {
    if cs == [] {
      assert Elems([]) == {};
    } else {
      var init, last := cs[..|cs| - 1], cs[|cs| - 1];
      var mid := ChannelPass(st, init, priority);
      ChannelPassInv(st, init, priority);
      ChannelStepInv(mid, last, priority);
      ChannelStepAppended(mid, last, priority);
      assert ChannelPass(st, cs, priority) == ChannelStep(mid, last, priority);
      var extra := if ChannelId(last).Some? then [ChannelId(last).value] else [];
      assert ChannelIds(cs) == ChannelIds(init) + extra;
      assert Elems(ChannelIds(cs)) == Elems(ChannelIds(init)) + Elems(extra);
      StoresTrans(st, mid, ChannelPass(st, cs, priority), Elems(ChannelIds(init)), Elems(extra), priority);
      AppendedTrans(st, mid, ChannelPass(st, cs, priority), init, [last], cs, priority, Elems(extra));
    }
  }

  /** A programme step stores nothing and keeps the invariant. */
  lemma ProgrammeStepInv(st: FoldState, c: XmlTag, priority: int, bound: int)
    requires PassInv(st, bound)
    ensures PassInv(ProgrammeStep(st, c, priority), bound) && ProgrammeStep(st, c, priority).mapping == st.mapping
    ensures Appended(st, ProgrammeStep(st, c, priority), [c], priority)
  {
    var next := ProgrammeStep(st, c, priority);
    if next != st {
      ChannelIdsAppend(st.children, c);
      assert ChannelId(c).None?;
      forall k | 0 <= k < |next.children| && ProgrammeChannel(next.children[k]).Some?
        ensures ProgrammeChannel(next.children[k]).value in next.mapping.Keys
      {
        if k < |st.children| {
          assert next.children[k] == st.children[k];
        }
      }
    }
  }

  lemma {:induction false} ProgrammePassInv(st: FoldState, cs: seq<XmlTag>, priority: int, bound: int)
    requires PassInv(st, bound)
    ensures PassInv(ProgrammePass(st, cs, priority), bound) && ProgrammePass(st, cs, priority).mapping == st.mapping
    ensures Appended(st, ProgrammePass(st, cs, priority), cs, priority)
  {
    if cs != [] {
      var init, last := cs[..|cs| - 1], cs[|cs| - 1];
      var mid := ProgrammePass(st, init, priority);
      ProgrammePassInv(st, init, priority, bound);
      ProgrammeStepInv(mid, last, priority, bound);
      AppendedTrans(st, mid, ProgrammePass(st, cs, priority), init, [last], cs, priority, {});
    }
  }

  lemma GuideStepInv(st: FoldState, g: Epg)
    requires PassInv(st, g.priority)
    ensures PassInv(GuideStep(st, g), g.priority)
    ensures Stores(st, GuideStep(st, g), Elems(ChannelIds(g.children)), g.priority)
    ensures Appended(st, GuideStep(st, g), g.children, g.priority)
  {
    var mid := ChannelPass(st, g.children, g.priority);
    ChannelPassInv(st, g.children, g.priority);
    ProgrammePassInv(mid, g.children, g.priority, g.priority);
    AppendedTrans(st, mid, GuideStep(st, g), g.children, g.children, g.children, g.priority, {});
  }

  /**
   * Folding guides sorted by ascending priority: kept channel ids are
   * distinct and are exactly the ids some guide offers, each stored with the
   * smallest priority among the guides offering it, and every kept programme
   * refers to a kept channel.
   */
  lemma FoldGuidesInv(gs: seq<Epg>)
    requires SortedByPriority(gs)
    ensures var st := FoldGuides(gs);
      && NoDuplicates(ChannelIds(st.children))
      && (forall id :: id in ChannelIds(st.children) <==> id in st.mapping)
      && ProgrammesCovered(st.children, st.mapping.Keys)
      && (gs != [] ==> forall id | id in st.mapping :: st.mapping[id] <= gs[|gs| - 1].priority)
      && (forall id :: id in st.mapping <==> exists i | 0 <= i < |gs| :: Offers(gs[i], id))
      && (forall id, i | id in st.mapping && 0 <= i < |gs| && Offers(gs[i], id) :: st.mapping[id] <= gs[i].priority)
      && (forall id | id in st.mapping :: exists i | 0 <= i < |gs| :: Offers(gs[i], id) && st.mapping[id] == gs[i].priority)
  {
    FoldGuidesPass(gs, if gs == [] then 0 else gs[|gs| - 1].priority);
    FoldGuidesMapping(gs);
  }

  /** Every kept tag came from a guide and is kept with that guide's priority. */
  ghost predicate Provenance(children: seq<XmlTag>, gs: seq<Epg>, m: map<string, int>) {
    forall k | 0 <= k < |children| :: exists i | 0 <= i < |gs| ::
      children[k] in gs[i].children && Kept(children[k], gs[i].priority, m)
  }

  lemma {:induction false} FoldGuidesProvenance(gs: seq<Epg>)
    requires SortedByPriority(gs)
    ensures Provenance(FoldGuides(gs).children, gs, FoldGuides(gs).mapping)
  {
    if gs != [] {
      var init := gs[..|gs| - 1];
      assert forall i | 0 <= i < |init| :: init[i] == gs[i];
      FoldGuidesLastStep(init, gs[|gs| - 1]);
      FoldGuidesProvenance(init);
      var st0, st := FoldGuides(init), FoldGuides(gs);
      forall k | 0 <= k < |st.children|
        ensures exists i | 0 <= i < |gs| :: st.children[k] in gs[i].children && Kept(st.children[k], gs[i].priority, st.mapping)
      {
        if k < |st0.children| {
          assert st.children[k] == st.children[..|st0.children|][k] == st0.children[k];
          var i :| 0 <= i < |init| && st0.children[k] in init[i].children && Kept(st0.children[k], init[i].priority, st0.mapping);
          KeptStores(st0.children[k], init[i].priority, st0, st, Elems(ChannelIds(gs[|gs| - 1].children)), gs[|gs| - 1].priority);
          assert init[i] == gs[i];
        } else {
          assert st.children[k] in gs[|gs| - 1].children;
        }
      }
    }
  }

  /** A further guide's step stores its new channel ids and appends only its own kept children. */
  lemma FoldGuidesLastStep(init: seq<Epg>, last: Epg)
    requires SortedByPriority(init) && (init != [] ==> init[|init| - 1].priority <= last.priority)
    ensures var st0 := FoldGuides(init);
      && Stores(st0, GuideStep(st0, last), Elems(ChannelIds(last.children)), last.priority)
      && Appended(st0, GuideStep(st0, last), last.children, last.priority)
  {
    FoldGuidesPass(init, last.priority);
    GuideStepInv(FoldGuides(init), last);
  }

  /** The fold of sorted guides satisfies the pass invariant for any bound at or above the last priority. */
  lemma {:induction false} FoldGuidesPass(gs: seq<Epg>, bound: int)
    requires SortedByPriority(gs) && (gs != [] ==> gs[|gs| - 1].priority <= bound)
    ensures PassInv(FoldGuides(gs), bound)
  {
    if gs != [] {
      var init, last := gs[..|gs| - 1], gs[|gs| - 1];
      assert forall i | 0 <= i < |init| :: init[i] == gs[i];
      FoldGuidesPass(init, last.priority);
      GuideStepInv(FoldGuides(init), last);
    }
  }

  /** A stored priority stays stored. */
  lemma KeptStores(c: XmlTag, p: int, st: FoldState, next: FoldState, ids: set<string>, priority: int)
    requires Stores(st, next, ids, priority) && Kept(c, p, st.mapping)
    ensures Kept(c, p, next.mapping)
  {
  }

  /** Some guide has a channel tag with this id. */
  ghost predicate OfferedBy(gs: seq<Epg>, id: string) {
    exists g | g in gs :: Offers(g, id)
  }

  /** `p` is the smallest priority of the guides that offer channel `id`. */
  ghost predicate Winner(p: int, id: string, gs: seq<Epg>) {
    (exists g | g in gs :: Offers(g, id) && g.priority == p)
    && forall g | g in gs && Offers(g, id) :: p <= g.priority
  }

  /** The fold's stored priorities over the sorted guides are the winning ones of the original guides. */
  lemma FoldGuidesWinners(tvGuides: seq<Epg>, m: map<string, int>)
    requires m == FoldGuides(SortByPriority(tvGuides)).mapping
    ensures forall id :: id in m <==> OfferedBy(tvGuides, id)
    ensures forall id | id in m :: Winner(m[id], id, tvGuides)
  {
    var sorted := SortByPriority(tvGuides);
    FoldGuidesMapping(sorted);
    SortByPriorityMembers(tvGuides);
    forall id ensures id in m <==> OfferedBy(tvGuides, id) {
      OfferedKey(sorted, tvGuides, m, id);
    }
    forall id | id in m ensures Winner(m[id], id, tvGuides) {
      WinnerValue(sorted, tvGuides, m, id);
    }
  }

  lemma OfferedKey(sorted: seq<Epg>, tvGuides: seq<Epg>, m: map<string, int>, id: string)
    requires forall g :: g in sorted <==> g in tvGuides
    requires id in m <==> exists i | 0 <= i < |sorted| :: Offers(sorted[i], id)
    ensures id in m <==> OfferedBy(tvGuides, id)
  {
    if id in m {
      var i :| 0 <= i < |sorted| && Offers(sorted[i], id);
      assert sorted[i] in sorted;
    }
    if OfferedBy(tvGuides, id) {
      var g :| g in tvGuides && Offers(g, id);
      var i :| 0 <= i < |sorted| && sorted[i] == g;
    }
  }

  lemma WinnerValue(sorted: seq<Epg>, tvGuides: seq<Epg>, m: map<string, int>, id: string)
    requires id in m
    requires forall g :: g in sorted <==> g in tvGuides
    requires forall i | 0 <= i < |sorted| && Offers(sorted[i], id) :: m[id] <= sorted[i].priority
    requires exists i | 0 <= i < |sorted| :: Offers(sorted[i], id) && m[id] == sorted[i].priority
    ensures Winner(m[id], id, tvGuides)
  {
    var i :| 0 <= i < |sorted| && Offers(sorted[i], id) && m[id] == sorted[i].priority;
    assert sorted[i] in sorted;
    forall g | g in tvGuides && Offers(g, id) ensures m[id] <= g.priority {
      var j :| 0 <= j < |sorted| && sorted[j] == g;
    }
  }

  /** The facts about the stored priorities alone. */
  /**
   * `m` stores exactly the channel ids the guides offer, each with the
   * smallest priority among the guides offering it.
   */
  ghost predicate MinPriorities(gs: seq<Epg>, m: map<string, int>) {
    && (forall id :: id in m <==> exists i | 0 <= i < |gs| :: Offers(gs[i], id))
    && (forall id, i | id in m && 0 <= i < |gs| && Offers(gs[i], id) :: m[id] <= gs[i].priority)
    && (forall id | id in m :: exists i | 0 <= i < |gs| :: Offers(gs[i], id) && m[id] == gs[i].priority)
  }

  lemma {:induction false} FoldGuidesMapping(gs: seq<Epg>)
    requires SortedByPriority(gs)
    ensures MinPriorities(gs, FoldGuides(gs).mapping)
  {
    if gs != [] {
      var init, last := gs[..|gs| - 1], gs[|gs| - 1];
      assert forall i | 0 <= i < |init| :: init[i] == gs[i];
      FoldGuidesMapping(init);
      FoldGuidesLastStep(init, last);
      FoldGuidesPass(gs, last.priority);
      MinPrioritiesStep(init, last, gs, FoldGuides(init).mapping, FoldGuides(gs).mapping);
    }
  }

  /** One more guide, of the largest priority so far, keeps the stored priorities minimal. */
  lemma MinPrioritiesStep(init: seq<Epg>, last: Epg, gs: seq<Epg>, m0: map<string, int>, m: map<string, int>)
    requires |gs| == |init| + 1 && gs[|init|] == last && forall i | 0 <= i < |init| :: gs[i] == init[i]
    requires MinPriorities(init, m0)
    requires m.Keys == m0.Keys + Elems(ChannelIds(last.children))
    requires forall id | id in m0 :: m[id] == m0[id]
    requires forall id | id in m && id !in m0 :: m[id] == last.priority
    requires forall id | id in m :: m[id] <= last.priority
    ensures MinPriorities(gs, m)
  {
    StepStoredFromGuide(init, last, gs, m0, m);
    StepOfferedStored(init, last, gs, m0, m);
    StepStoredMinimal(init, last, gs, m0, m);
  }

  lemma StepStoredFromGuide(init: seq<Epg>, last: Epg, gs: seq<Epg>, m0: map<string, int>, m: map<string, int>)
    requires |gs| == |init| + 1 && gs[|init|] == last && forall i | 0 <= i < |init| :: gs[i] == init[i]
    requires MinPriorities(init, m0)
    requires m.Keys == m0.Keys + Elems(ChannelIds(last.children))
    requires forall id | id in m0 :: m[id] == m0[id]
    requires forall id | id in m && id !in m0 :: m[id] == last.priority
    requires forall id | id in m :: m[id] <= last.priority
    ensures forall id | id in m :: exists i | 0 <= i < |gs| :: Offers(gs[i], id) && m[id] == gs[i].priority
  {
    forall id | id in m
      ensures exists i | 0 <= i < |gs| :: Offers(gs[i], id) && m[id] == gs[i].priority
    {
      if id in m0 {
        var i :| 0 <= i < |init| && Offers(init[i], id) && m0[id] == init[i].priority;
        assert Offers(gs[i], id);
      } else {
        assert Offers(gs[|init|], id);
      }
    }
  }

  lemma StepOfferedStored(init: seq<Epg>, last: Epg, gs: seq<Epg>, m0: map<string, int>, m: map<string, int>)
    requires |gs| == |init| + 1 && gs[|init|] == last && forall i | 0 <= i < |init| :: gs[i] == init[i]
    requires MinPriorities(init, m0)
    requires m.Keys == m0.Keys + Elems(ChannelIds(last.children))
    requires forall id | id in m0 :: m[id] == m0[id]
    requires forall id | id in m && id !in m0 :: m[id] == last.priority
    requires forall id | id in m :: m[id] <= last.priority
    ensures forall id :: id in m <==> exists i | 0 <= i < |gs| :: Offers(gs[i], id)
  {
    forall id | (exists i | 0 <= i < |gs| :: Offers(gs[i], id)) ensures id in m {
      var i :| 0 <= i < |gs| && Offers(gs[i], id);
      if i < |init| {
        assert Offers(init[i], id);
      } else {
        assert id in Elems(ChannelIds(last.children));
      }
    }
    StepStoredFromGuide(init, last, gs, m0, m);
  }

  lemma StepStoredMinimal(init: seq<Epg>, last: Epg, gs: seq<Epg>, m0: map<string, int>, m: map<string, int>)
    requires |gs| == |init| + 1 && gs[|init|] == last && forall i | 0 <= i < |init| :: gs[i] == init[i]
    requires MinPriorities(init, m0)
    requires m.Keys == m0.Keys + Elems(ChannelIds(last.children))
    requires forall id | id in m0 :: m[id] == m0[id]
    requires forall id | id in m && id !in m0 :: m[id] == last.priority
    requires forall id | id in m :: m[id] <= last.priority
    ensures forall id, i | id in m && 0 <= i < |gs| && Offers(gs[i], id) :: m[id] <= gs[i].priority
  {
    forall id, i | id in m && 0 <= i < |gs| && Offers(gs[i], id) ensures m[id] <= gs[i].priority {
      if i < |init| {
        assert gs[i] == init[i] && Offers(init[i], id);
        assert id in m0;
        assert m[id] == m0[id] <= init[i].priority;
      } else {
        assert gs[i] == last;
      }
    }
  }

  /** Sorting keeps the same guides. */
  lemma SortByPriorityMembers(tvGuides: seq<Epg>)
    ensures forall g :: g in SortByPriority(tvGuides) <==> g in tvGuides
  {
    var sorted := SortByPriority(tvGuides);
    forall g ensures g in sorted <==> g in tvGuides {
      assert g in sorted <==> g in multiset(sorted);
      assert g in tvGuides <==> g in multiset(tvGuides);
    }
  }

  /**
   * Flattening keeps every channel id some guide offers, exactly once, and
   * every programme it keeps refers to a kept channel.
   */
  lemma FlattenChannels(tvGuides: seq<Epg>)
    requires tvGuides != []
    ensures var out := Flatten(tvGuides).value.children;
      && NoDuplicates(ChannelIds(out))
      && (forall id :: id in ChannelIds(out) <==> OfferedBy(tvGuides, id))
      && ProgrammesCovered(out, Elems(ChannelIds(out)))
  {
    FoldGuidesInv(SortByPriority(tvGuides));
    FoldGuidesWinners(tvGuides, FoldGuides(SortByPriority(tvGuides)).mapping);
  }

  /** `c` is kept with priority `p` and `p` wins its channel among `gs`. */
  ghost predicate WinsFor(c: XmlTag, p: int, gs: seq<Epg>) {
    || (ChannelId(c).Some? && Winner(p, ChannelId(c).value, gs))
    || (ProgrammeChannel(c).Some? && Winner(p, ProgrammeChannel(c).value, gs))
  }

  /** `c` is a child of a guide that wins the channel `c` belongs to. */
  ghost predicate FromWinner(c: XmlTag, gs: seq<Epg>) {
    exists g | g in gs :: c in g.children && WinsFor(c, g.priority, gs)
  }

  lemma KeptWins(c: XmlTag, g: Epg, gs: seq<Epg>, m: map<string, int>)
    requires g in gs && c in g.children && Kept(c, g.priority, m)
    requires forall id | id in m :: Winner(m[id], id, gs)
    ensures FromWinner(c, gs)
  {
    if ChannelId(c).Some? && ChannelId(c).value in m && m[ChannelId(c).value] == g.priority {
      assert Winner(g.priority, ChannelId(c).value, gs);
    } else {
      assert Winner(g.priority, ProgrammeChannel(c).value, gs);
    }
    assert WinsFor(c, g.priority, gs);
  }

  /**
   * Every tag flattening keeps is a child of a guide whose priority is the
   * smallest among the guides offering the tag's channel: a channel from
   * such a guide, or a programme of such a guide.
   */
  lemma FlattenKeepsWinners(tvGuides: seq<Epg>)
    requires tvGuides != []
    ensures forall c | c in Flatten(tvGuides).value.children :: FromWinner(c, tvGuides)
  {
    var sorted := SortByPriority(tvGuides);
    var st := FoldGuides(sorted);
    FoldGuidesProvenance(sorted);
    FoldGuidesWinners(tvGuides, st.mapping);
    forall c | c in st.children ensures FromWinner(c, tvGuides) {
      var k :| 0 <= k < |st.children| && st.children[k] == c;
      var i :| 0 <= i < |sorted| && c in sorted[i].children && Kept(c, sorted[i].priority, st.mapping);
      assert sorted[i] in multiset(tvGuides);
      KeptWins(c, sorted[i], tvGuides, st.mapping);
    }
  }
}
