/** The BRD page (`ViewBRD.js`): the key humaniser, the recursive renderer
    of a BRD section (`renderNestedObject`), the top-level accordion loop,
    and the page's fallbacks. The React markup is replaced by a small tree of
    label/content blocks. */
module ViewBrd {
  import opened Base
  import opened Strings
  import opened Json

  // ---------------------------------------------------------------------
  // Key humaniser: key.replace(/([A-Z])/g, ' $1').replace(/^./, toUpperCase)
  // ---------------------------------------------------------------------

  function CountUpper(s: string): nat
    decreases |s|
  {
    if |s| == 0 then 0 else (if IsUpper(s[0]) then 1 else 0) + CountUpper(s[1..])
  }

  /** The first replacement: a space in front of every `A`-`Z`. */
  function SpaceBeforeUpper(k: string): (r: string)
    ensures |r| == |k| + CountUpper(k)
    decreases |k|
  {
    if |k| == 0 then ""
    else (if IsUpper(k[0]) then [' ', k[0]] else [k[0]]) + SpaceBeforeUpper(k[1..])
  }

  /** Every capital in `r` has a space right before it. */
  predicate CapitalsMarked(r: string) {
    forall i :: 0 <= i < |r| && IsUpper(r[i]) ==> 0 < i && r[i - 1] == ' '
  }

  /** After the first replacement every capital has a space before it. */
  lemma {:induction false} SpaceBeforeUpperMarksCapitals(k: string)
    ensures CapitalsMarked(SpaceBeforeUpper(k))
    decreases |k|
  {
    if |k| > 0 {
      SpaceBeforeUpperMarksCapitals(k[1..]);
      var rest := SpaceBeforeUpper(k[1..]);
      assert CapitalsMarked(rest);
      var head := if IsUpper(k[0]) then [' ', k[0]] else [k[0]];
      var r := SpaceBeforeUpper(k);
      assert r == head + rest;
      forall i | 0 <= i < |r| && IsUpper(r[i])
        ensures 0 < i && r[i - 1] == ' '
      {
        if i >= |head| {
          assert r[i] == rest[i - |head|];
          if i - |head| > 0 {
            assert r[i - 1] == rest[i - |head| - 1];
          }
        }
      }
    }
  }

  /** The characters `.` does not match in a JavaScript regular expression. */
  predicate IsLineTerminator(c: char) {
    c == '\n' || c == '\r' || c as int == 0x2028 || c as int == 0x2029
  }

  /** The second replacement: `/^./` upper-cases the first character unless
      it is a line terminator. */
  function CapitalizeFirst(s: string): string {
    if |s| > 0 && !IsLineTerminator(s[0]) then [UpperChar(s[0])] + s[1..] else s
  }

  /** The label shown for a key, both inside a section and as an accordion
      title. */
  function FormatKey(k: string): string {
    CapitalizeFirst(SpaceBeforeUpper(k))
  }

  /** The label is the key plus one inserted space per capital, and apart
      from a capitalised first character every capital of the label follows
      a space. */
  lemma FormatKeyShape(k: string)
    ensures |FormatKey(k)| == |k| + CountUpper(k)
    ensures forall i :: 0 < i < |FormatKey(k)| && IsUpper(FormatKey(k)[i]) ==> FormatKey(k)[i - 1] == ' '
  {
    SpaceBeforeUpperMarksCapitals(k);
    var r := SpaceBeforeUpper(k);
    assert forall i :: 0 < i < |r| ==> CapitalizeFirst(r)[i] == r[i];
  }

  function RemoveSpaces(s: string): string
    decreases |s|
  {
    if |s| == 0 then "" else (if s[0] == ' ' then "" else [s[0]]) + RemoveSpaces(s[1..])
  }

  lemma {:induction false} RemoveSpacesAppend(a: string, b: string)
    ensures RemoveSpaces(a + b) == RemoveSpaces(a) + RemoveSpaces(b)
    decreases |a|
  {
    if |a| == 0 {
      assert a + b == b;
    } else {
      assert (a + b)[1..] == a[1..] + b;
      RemoveSpacesAppend(a[1..], b);
    }
  }

  lemma {:induction false} RemoveSpacesWithoutSpaces(s: string)
    requires ' ' !in s
    ensures RemoveSpaces(s) == s
    decreases |s|
  {
    if |s| > 0 {
      RemoveSpacesWithoutSpaces(s[1..]);
      assert [s[0]] + s[1..] == s;
    }
  }

  lemma {:induction false} SpaceBeforeUpperOnlyAddsSpaces(k: string)
    ensures RemoveSpaces(SpaceBeforeUpper(k)) == RemoveSpaces(k)
    decreases |k|
  {
    if |k| > 0 {
      var head := if IsUpper(k[0]) then [' ', k[0]] else [k[0]];
      SpaceBeforeUpperOnlyAddsSpaces(k[1..]);
      RemoveSpacesAppend(head, SpaceBeforeUpper(k[1..]));
      RemoveSpacesAppend([k[0]], k[1..]);
      assert [k[0]] + k[1..] == k;
    }
  }

  /** Formatting only inserts spaces and capitalises the first character:
      deleting the spaces of the label gives the key, capitalised. */
  lemma FormatKeyOnlyAddsSpaces(k: string)
    ensures RemoveSpaces(FormatKey(k)) == RemoveSpaces(CapitalizeFirst(k))
  {
    var r := SpaceBeforeUpper(k);
    SpaceBeforeUpperOnlyAddsSpaces(k);
    if |k| > 0 && !IsUpper(k[0]) && !IsLineTerminator(k[0]) {
      var rest := SpaceBeforeUpper(k[1..]);
      assert r == [k[0]] + rest;
      assert r[1..] == rest;
      SpaceBeforeUpperOnlyAddsSpaces(k[1..]);
      RemoveSpacesAppend([UpperChar(k[0])], rest);
      RemoveSpacesAppend([UpperChar(k[0])], k[1..]);
    } else if |k| > 0 && IsUpper(k[0]) {
      assert r[0] == ' ';
      assert [UpperChar(k[0])] + k[1..] == k;
      assert [UpperChar(r[0])] + r[1..] == r;
    }
  }

  /** A camelCase key: starts with a lower-case letter, contains no space. */
  predicate IsCamelKey(k: string) {
    |k| > 0 && IsLower(k[0]) && ' ' !in k
  }

  /** Distinct camelCase keys get distinct labels. */
  lemma FormatKeyInjectiveOnCamelKeys(a: string, b: string)
    requires IsCamelKey(a) && IsCamelKey(b)
    requires FormatKey(a) == FormatKey(b)
    ensures a == b
  {
    FormatKeyOnlyAddsSpaces(a);
    FormatKeyOnlyAddsSpaces(b);
    var ca := CapitalizeFirst(a);
    var cb := CapitalizeFirst(b);
    assert ' ' !in ca;
    assert ' ' !in cb;
    RemoveSpacesWithoutSpaces(ca);
    RemoveSpacesWithoutSpaces(cb);
    assert ca == cb;
    assert a[1..] == ca[1..] == cb[1..] == b[1..];
    assert a == [a[0]] + a[1..] && b == [b[0]] + b[1..];
  }

  lemma {:induction false} SpaceBeforeUpperAppend(a: string, b: string)
    ensures SpaceBeforeUpper(a + b) == SpaceBeforeUpper(a) + SpaceBeforeUpper(b)
    decreases |a|
  {
    if |a| == 0 {
      assert a + b == b;
    } else {
      assert (a + b)[0] == a[0];
      assert (a + b)[1..] == a[1..] + b;
      SpaceBeforeUpperAppend(a[1..], b);
    }
  }

  lemma {:induction false} SpaceBeforeUpperNoCapitals(s: string)
    requires forall i :: 0 <= i < |s| ==> !IsUpper(s[i])
    ensures SpaceBeforeUpper(s) == s
    decreases |s|
  {
    if |s| > 0 {
      SpaceBeforeUpperNoCapitals(s[1..]);
      assert [s[0]] + s[1..] == s;
    }
  }

  /** A camelCase key with one capital, `a` + `C` + `b`, is labelled
      `a` capitalised, a space, `C`, then `b`. */
  lemma OneCapitalLabel(a: string, c: char, b: string)
    requires |a| > 0 && IsLower(a[0])
    requires forall i :: 0 <= i < |a| ==> !IsUpper(a[i])
    requires forall i :: 0 <= i < |b| ==> !IsUpper(b[i])
    requires IsUpper(c)
    ensures FormatKey(a + [c] + b) == [UpperChar(a[0])] + a[1..] + [' ', c] + b
  {
    SpaceBeforeUpperNoCapitals(a);
    SpaceBeforeUpperNoCapitals(b);
    SpaceBeforeUpperAppend(a, [c] + b);
    assert SpaceBeforeUpper([c] + b) == [' ', c] + SpaceBeforeUpper(([c] + b)[1..]);
    assert ([c] + b)[1..] == b;
    assert a + [c] + b == a + ([c] + b);
    var r := a + ([' ', c] + b);
    assert r[0] == a[0] && r[1..] == a[1..] + [' ', c] + b;
  }

  /** The label of the BRD's executive summary key. */
  lemma ExecutiveSummaryLabel()
    ensures FormatKey("executiveSummary") == "Executive Summary"
  {
    var a, b := "executive", "ummary";
    assert "executiveSummary" == a + ['S'] + b;
    OneCapitalLabel(a, 'S', b);
    assert [UpperChar(a[0])] + a[1..] + [' ', 'S'] + b == "Executive Summary";
  }

  /** A key that starts with a capital gains a leading space that the
      capitalisation step leaves alone: its label is the first replacement
      alone, a space followed by the capital and the rest of the key's
      label. */
  lemma LeadingCapitalLabel(k: string)
    requires |k| > 0 && IsUpper(k[0])
    ensures FormatKey(k) == SpaceBeforeUpper(k)
    ensures FormatKey(k) == [' ', k[0]] + SpaceBeforeUpper(k[1..])
  {
    var r := SpaceBeforeUpper(k);
    assert r == [' ', k[0]] + SpaceBeforeUpper(k[1..]);
    assert r[0] == ' ' && UpperChar(r[0]) == r[0];
    assert [r[0]] + r[1..] == r;
    assert CapitalizeFirst(r) == r;
  }

  /** So `ID` is labelled `" I D"`, with a leading space. */
  lemma IdLabel()
    ensures FormatKey("ID") == " I D"
  {
    LeadingCapitalLabel("ID");
    assert "ID"[1..] == "D";
    assert SpaceBeforeUpper("D") == " D";
  }

  // ---------------------------------------------------------------------
  // renderNestedObject
  // ---------------------------------------------------------------------

  /** A labelled box: the bold formatted key and what is shown under it. */
  datatype Block = Block(heading: string, body: Body)

  datatype Body =
    | Subtree(blocks: seq<Block>)   // an indented nested rendering
    | Bullets(items: seq<Item>)     // a bulleted list, one item per element
    | Text(value: Json)             // a scalar shown directly

  datatype Item =
    | Expanded(blocks: seq<Block>)  // an object-typed element, rendered in place
    | Plain(value: Json)            // a scalar element

  /** The values a member is hidden for: `null`, `''` and `[]`. */
  predicate IsEmptyValue(v: Json) {
    v == JNull || v == JStr("") || v == JArr([])
  }

  /** `renderNestedObject(obj)`; every call site passes an object-typed
      value. `null` renders nothing; an array renders like an object whose
      keys are its indices, as `Object.entries` sees it. */
  function RenderNested(j: Json): seq<Block>
    requires IsObjectTyped(j)
    decreases j, 0
  {
    match j
    case JObj(ps) => RenderMembers(ps)
    case JArr(xs) => RenderElements(xs, 0)
    case JNull => []
  }

  function RenderMembers(ps: seq<(string, Json)>): seq<Block>
    decreases ps, 0
  {
    if |ps| == 0 then []
    else
      RenderMember(ps[0]) + RenderMembers(ps[1..])
  }

  function RenderMember(p: (string, Json)): seq<Block>
    decreases p, 3
  {
    RenderEntry(p.0, p.1)
  }

  function RenderElements(xs: seq<Json>, start: nat): seq<Block>
    decreases xs, 0
  {
    if |xs| == 0 then []
    else RenderEntry(NatToString(start), xs[0]) + RenderElements(xs[1..], start + 1)
  }

  /** One entry of the map callback: nothing for an empty value, otherwise
      one block labelled with the formatted key. */
  function RenderEntry(key: string, v: Json): (blocks: seq<Block>)
    ensures blocks == [] <==> IsEmptyValue(v)
    ensures |blocks| <= 1
    decreases v, 2
  {
    if IsEmptyValue(v) then [] else [Block(FormatKey(key), RenderValue(v))]
  }

  /** The value dispatch: a non-array object becomes an indented subtree,
      an array a list, anything else is shown as is. */
  function RenderValue(v: Json): Body
    decreases v, 1
  {
    match v
    case JObj(_) => Subtree(RenderNested(v))
    case JArr(xs) => Bullets(RenderItems(xs))
    case _ => Text(v)
  }

  /** The list items of an array value: exactly one per element, in order. */
  function RenderItems(xs: seq<Json>): (items: seq<Item>)
    ensures |items| == |xs|
    ensures forall i :: 0 <= i < |xs| ==> items[i] == RenderItem(xs[i])
    decreases xs, 0
  {
    if |xs| == 0 then []
    else
      var rest := RenderItems(xs[1..]);
      assert forall i :: 1 <= i < |xs| ==> xs[i] == xs[1..][i - 1];
      [RenderItem(xs[0])] + rest
  }

  /** `typeof item === 'object' ? renderNestedObject(item) : item`. */
  function RenderItem(x: Json): Item
    decreases x, 1
  {
    if IsObjectTyped(x) then Expanded(RenderNested(x)) else Plain(x)
  }

  /** The members that survive the empty-value filter, in their order. */
  function Kept(ps: seq<(string, Json)>): seq<(string, Json)>
    decreases |ps|
  {
    if |ps| == 0 then []
    else (if IsEmptyValue(ps[0].1) then [] else [ps[0]]) + Kept(ps[1..])
  }

  lemma {:induction false} KeptMembers(ps: seq<(string, Json)>)
    ensures forall p :: p in Kept(ps) <==> p in ps && !IsEmptyValue(p.1)
    decreases |ps|
  {
    if |ps| > 0 {
      KeptMembers(ps[1..]);
      assert ps == [ps[0]] + ps[1..];
    }
  }

  /** The block a surviving member renders to. */
  function BlockOf(p: (string, Json)): Block {
    Block(FormatKey(p.0), RenderValue(p.1))
  }

  /** Rendering a member list is filtering out the empty values and then
      rendering each survivor, in the original order. */
  lemma {:induction false} RenderMembersFilterThenMap(ps: seq<(string, Json)>)
    ensures |RenderMembers(ps)| == |Kept(ps)|
    ensures forall i :: 0 <= i < |Kept(ps)| ==> RenderMembers(ps)[i] == BlockOf(Kept(ps)[i])
    decreases |ps|
  {
    if |ps| > 0 {
      RenderMembersFilterThenMap(ps[1..]);
      var head := RenderMember(ps[0]);
      var kh := if IsEmptyValue(ps[0].1) then [] else [ps[0]];
      var rest, krest := RenderMembers(ps[1..]), Kept(ps[1..]);
      assert head == RenderEntry(ps[0].0, ps[0].1);
      assert |head| == |kh|;
      assert RenderMembers(ps) == head + rest;
      assert Kept(ps) == kh + krest;
      forall i | 0 <= i < |Kept(ps)|
        ensures RenderMembers(ps)[i] == BlockOf(Kept(ps)[i])
      {
        if i < |kh| {
          assert head == [BlockOf(ps[0])] && kh == [ps[0]];
        } else {
          assert Kept(ps)[i] == krest[i - |kh|];
          assert RenderMembers(ps)[i] == rest[i - |head|];
        }
      }
    }
  }

  /** Rendering distributes over concatenation of member lists: every
      member is rendered on its own and in place. */
  lemma {:induction false} RenderMembersAppend(a: seq<(string, Json)>, b: seq<(string, Json)>)
    ensures RenderMembers(a + b) == RenderMembers(a) + RenderMembers(b)
    decreases |a|
  {
    if |a| == 0 {
      assert a + b == b;
    } else {
      assert (a + b)[0] == a[0];
      assert (a + b)[1..] == a[1..] + b;
      RenderMembersAppend(a[1..], b);
    }
  }

  /** `[[i, xs[i]] ...]`: the entries `Object.entries` gives for an array,
      with keys counted from `start`. */
  function Indexed(xs: seq<Json>, start: nat): (ps: seq<(string, Json)>)
    ensures |ps| == |xs|
  {
    seq(|xs|, i requires 0 <= i < |xs| => (NatToString(start + i), xs[i]))
  }

  /** An array renders exactly like the object of its index entries. */
  lemma {:induction false} RenderElementsAsEntries(xs: seq<Json>, start: nat)
    ensures RenderElements(xs, start) == RenderMembers(Indexed(xs, start))
    decreases |xs|
  {
    if |xs| > 0 {
      RenderElementsAsEntries(xs[1..], start + 1);
      assert Indexed(xs, start)[1..] == Indexed(xs[1..], start + 1);
    }
  }

  /** `0`, `false` and `{}` are shown; `null`, `''` and `[]` are not. */
  lemma EmptyFilterExamples(ps: seq<(string, Json)>)
    requires ps == [("a", JInt(0)), ("b", JBool(false)), ("c", JObj([])),
                    ("d", JNull), ("e", JStr("")), ("f", JArr([]))]
    ensures Kept(ps) == [("a", JInt(0)), ("b", JBool(false)), ("c", JObj([]))]
    ensures RenderMembers(ps) == [BlockOf(ps[0]), BlockOf(ps[1]), BlockOf(ps[2])]
  {
    RenderMembersFilterThenMap(ps);
    var tail := ps[3..];
    assert tail[1..][1..][1..] == [];
    assert Kept(tail[1..][1..]) == [];
    assert Kept(tail[1..]) == [];
    assert Kept(tail) == [];
    assert ps[1..][1..][1..] == tail;
    assert Kept(ps[1..][1..]) == [ps[2]];
    assert Kept(ps[1..]) == [ps[1], ps[2]];
  }

  /** Of `{<k>: "x", teamSize: null, goals: []}` only the first member is
      rendered (with `k` the summary key, under "Executive Summary", by
      `ExecutiveSummaryLabel`). */
  lemma NullAndEmptyListHidden(k: string, ps: seq<(string, Json)>)
    requires ps == [(k, JStr("x")), ("teamSize", JNull), ("goals", JArr([]))]
    ensures RenderMembers(ps) == [Block(FormatKey(k), Text(JStr("x")))]
  {
    RenderMembersFilterThenMap(ps);
    assert ps[1..][1..][1..] == [];
    assert Kept(ps[1..][1..]) == [];
    assert Kept(ps[1..]) == [];
    assert Kept(ps) == [ps[0]];
  }

  // ---------------------------------------------------------------------
  // The page: executive summary, accordions, metadata
  // ---------------------------------------------------------------------

  const SummaryKey := "executiveSummary"
  const NoSummaryText := "No executive summary provided."
  const UnknownSource := "Unknown"
  const LoadErrorText := "Failed to load the Business Requirements Document. Please try again."
  const NotFoundText := "No BRD found with the provided ID."

  /** One accordion: its title and its details. */
  datatype Section = Section(title: string, content: SectionBody)

  datatype SectionBody =
    | Rendered(blocks: seq<Block>)  // an object-typed value, through renderNestedObject
    | Raw(value: Json)              // any other value, shown as is

  function SectionOf(key: string, v: Json): Section {
    Section(FormatKey(key), if IsObjectTyped(v) then Rendered(RenderNested(v)) else Raw(v))
  }

  /** The accordion loop: every key except the executive summary, in the
      order received, with no empty-value filter. */
  function Sections(ps: seq<(string, Json)>): (ss: seq<Section>)
    ensures |ss| <= |ps|
    decreases |ps|
  {
    if |ps| == 0 then []
    else (if ps[0].0 == SummaryKey then [] else [SectionOf(ps[0].0, ps[0].1)]) + Sections(ps[1..])
  }

  /** The entries other than the executive summary, in order. */
  function NonSummary(ps: seq<(string, Json)>): seq<(string, Json)>
    decreases |ps|
  {
    if |ps| == 0 then []
    else (if ps[0].0 == SummaryKey then [] else [ps[0]]) + NonSummary(ps[1..])
  }

  lemma {:induction false} NonSummaryMembers(ps: seq<(string, Json)>)
    ensures forall p :: p in NonSummary(ps) <==> p in ps && p.0 != SummaryKey
    decreases |ps|
  {
    if |ps| > 0 {
      NonSummaryMembers(ps[1..]);
      assert ps == [ps[0]] + ps[1..];
    }
  }

  /** Exactly one accordion per non-summary key, in the order received. */
  lemma {:induction false} SectionsOnePerKey(ps: seq<(string, Json)>)
    ensures |Sections(ps)| == |NonSummary(ps)|
    ensures forall i :: 0 <= i < |NonSummary(ps)| ==>
      Sections(ps)[i] == SectionOf(NonSummary(ps)[i].0, NonSummary(ps)[i].1)
    decreases |ps|
  {
    if |ps| > 0 {
      SectionsOnePerKey(ps[1..]);
      var n := if ps[0].0 == SummaryKey then 0 else 1;
      var head := if ps[0].0 == SummaryKey then [] else [SectionOf(ps[0].0, ps[0].1)];
      var kh := if ps[0].0 == SummaryKey then [] else [ps[0]];
      var rest, krest := Sections(ps[1..]), NonSummary(ps[1..]);
      assert Sections(ps) == head + rest;
      assert NonSummary(ps) == kh + krest;
      forall i | 0 <= i < |NonSummary(ps)|
        ensures Sections(ps)[i] == SectionOf(NonSummary(ps)[i].0, NonSummary(ps)[i].1)
      {
        if i >= n {
          assert NonSummary(ps)[i] == krest[i - n];
          assert Sections(ps)[i] == rest[i - n];
        }
      }
    }
  }

  /** `Object.entries(v)` for the BRD body, which the page never checks is
      an object: arrays and strings give index entries, numbers and
      booleans none. */
  function TopEntries(v: Json): seq<(string, Json)>
    requires v != JNull
  {
    match v
    case JObj(ps) => ps
    case JArr(xs) => Indexed(xs, 0)
    case JStr(s) => Indexed(seq(|s|, i requires 0 <= i < |s| => JStr([s[i]])), 0)
    case _ => []
  }

  /** `brd.brd.executiveSummary || 'No executive summary provided.'` */
  function SummaryOf(body: Json): (shown: Json)
    ensures Truthy(shown)
    ensures HasTruthy(body, SummaryKey) ==> Get(body, SummaryKey) == Some(shown)
    ensures !HasTruthy(body, SummaryKey) ==> shown == JStr(NoSummaryText)
  {
    var v := Get(body, SummaryKey);
    if v.Some? && Truthy(v.value) then v.value else JStr(NoSummaryText)
  }

  /** `brd.original_filename || brd.original_source || 'Unknown'` */
  function SourceLabel(data: Json): (shown: Json)
    ensures Truthy(shown)
    ensures HasTruthy(data, "original_filename") ==> Get(data, "original_filename") == Some(shown)
    ensures !HasTruthy(data, "original_filename") && HasTruthy(data, "original_source") ==>
      Get(data, "original_source") == Some(shown)
    ensures !HasTruthy(data, "original_filename") && !HasTruthy(data, "original_source") ==>
      shown == JStr(UnknownSource)
  {
    if HasTruthy(data, "original_filename") then Get(data, "original_filename").value
    else if HasTruthy(data, "original_source") then Get(data, "original_source").value
    else JStr(UnknownSource)
  }

  /** What React accepts as a child: anything but a plain object, and an
      array only when each of its items is accepted. Rendering anything
      else throws, and with no error boundary the page is lost. */
  predicate RenderableChild(j: Json)
    decreases j
  {
    match j
    case JObj(_) => false
    case JArr(xs) => forall i :: 0 <= i < |xs| ==> RenderableChild(xs[i])
    case _ => true
  }

  /** The values the page interpolates directly as children: the summary,
      the document id and the source label. Every other place renders
      objects through `renderNestedObject` or shows only scalars. */
  predicate PageRenders(data: Json, body: Json) {
    && RenderableChild(SummaryOf(body))
    && (Get(data, "id").None? || RenderableChild(Get(data, "id").value))
    && RenderableChild(SourceLabel(data))
  }

  /** What the page shows once loading has finished. */
  datatype Page =
    | LoadFailed(message: string)   // the error alert after a failed request
    | NotFound(message: string)     // the warning for a falsy response body
    | Crashed                       // a TypeError: no usable `brd`, or a child React refuses
    | Shown(summary: Json, sections: seq<Section>, documentId: Option<Json>,
            createdAt: Option<Json>, source: Json)

  /** The page for the outcome of `GET /api/brd/<id>` (`None` when the
      request failed). */
  function ViewPage(fetched: Option<Json>): (page: Page)
    ensures fetched.None? <==> page == LoadFailed(LoadErrorText)
    ensures page.NotFound? <==> fetched.Some? && !Truthy(fetched.value)
    ensures page.NotFound? ==> page == NotFound(NotFoundText)
    ensures page == Crashed <==>
      && fetched.Some? && Truthy(fetched.value)
      && (|| Get(fetched.value, "brd").None? || Get(fetched.value, "brd") == Some(JNull)
          || !PageRenders(fetched.value, Get(fetched.value, "brd").value))
    ensures page.Shown? <==>
      && fetched.Some? && Truthy(fetched.value) && Get(fetched.value, "brd").Some? && Get(fetched.value, "brd") != Some(JNull)
      && PageRenders(fetched.value, Get(fetched.value, "brd").value)
    ensures page.Shown? ==>
      var data := fetched.value;
      var body := Get(data, "brd").value;
      && page.summary == SummaryOf(body)
      && page.sections == Sections(TopEntries(body))
      && page.documentId == Get(data, "id")
      && page.createdAt == Get(data, "created_at")
      && page.source == SourceLabel(data)
  {
    match fetched
    case None => LoadFailed(LoadErrorText)
    case Some(data) =>
      if !Truthy(data) then NotFound(NotFoundText)
      else
        var body := Get(data, "brd");
        if body.None? || body.value == JNull || !PageRenders(data, body.value) then Crashed
        else Shown(SummaryOf(body.value), Sections(TopEntries(body.value)),
                   Get(data, "id"), Get(data, "created_at"), SourceLabel(data))
  }
}
