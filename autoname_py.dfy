/**
  The Python daemon (__main__.py): parsing and rebuilding workspace names,
  the xprop WM_CLASS extraction, the icon lookup, the renumbering rule of
  rename_workspaces and the icon-stripping rename of on_exit.

  The i3 connection is replaced by data: rename_workspaces receives the
  output of each workspace from get_workspaces, and for each workspace of
  the tree its name, its number and the decoded xprop output of each of its
  leaves; the commands it would send are returned as a list.
 */
module AutonamePy {
  import opened Wrappers
  import opened Text

  // ---------------------------------------------------------------------
  // construct_workspace_name and parse_workspace_name
  // ---------------------------------------------------------------------

  /** The three groups of a workspace name; `num` is kept as text, as the regex yields it. */
  datatype NameParts = NameParts(num: string, shortName: Option<string>, icons: Option<string>)

  /** Python truthiness of an optional string: present and non-empty. */
  predicate Truthy(o: Option<string>) {
    o.Some? && o.value != ""
  }

  /** The number, then ":" and the short name and " " and the icons, each only when present. */
  function ConstructWorkspaceName(parts: NameParts): (name: string)
    ensures |name| >= |parts.num| && name[..|parts.num|] == parts.num
    ensures name == parts.num <==> !Truthy(parts.shortName) && !Truthy(parts.icons)
  {
    if Truthy(parts.shortName) || Truthy(parts.icons) then
      parts.num + ":"
        + (if Truthy(parts.shortName) then parts.shortName.value else "")
        + (if Truthy(parts.icons) then " " + parts.icons.value else "")
    else parts.num
  }

  /** The character classes of the regex: `\d`, `\w` and `.` (anything but a newline). */
  datatype CharClass = Digit | Word | NotNewline

  predicate InClass(c: char, cls: CharClass) {
    match cls
    case Digit => IsDigit(c)
    case Word => IsWordChar(c)
    case NotNewline => c != '\n'
  }

  /** Length of the longest prefix of `s` made of `cls` characters (what a greedy `+` takes). */
  function Run(s: string, cls: CharClass): (n: nat)
    ensures n <= |s|
  {
    if s == [] || !InClass(s[0], cls) then 0 else 1 + Run(s[1..], cls)
  }

  /** The run is all `cls` characters and stops at the first other one: it is the longest such prefix. */
  lemma {:induction false} RunSpec(s: string, cls: CharClass)
    ensures forall i :: 0 <= i < Run(s, cls) ==> InClass(s[i], cls)
    ensures Run(s, cls) < |s| ==> !InClass(s[Run(s, cls)], cls)
  {
    if s != [] && InClass(s[0], cls) {
      RunSpec(s[1..], cls);
      assert forall i :: 1 <= i < |s| ==> s[1..][i - 1] == s[i];
    }
  }

  /** The greedy run over `x + y` is `x` when `x` is all `cls` and `y` does not start with one. */
  lemma RunOf(x: string, y: string, cls: CharClass)
    requires forall i :: 0 <= i < |x| ==> InClass(x[i], cls)
    requires y != [] ==> !InClass(y[0], cls)
    ensures Run(x + y, cls) == |x|
  {
    RunSpec(x + y, cls);
    assert forall i :: 0 <= i < |x| ==> (x + y)[i] == x[i];
    if y != [] {
      assert (x + y)[|x|] == y[0];
    }
  }

  /** The optional group: absent when the greedy run is empty. */
  function Group(s: string, n: nat): Option<string>
    requires n <= |s|
  {
    if n == 0 then None else Some(s[..n])
  }

  /** An optional literal character (`:?`, ` ?`): dropped when it is the next one. */
  function SkipOptional(s: string, c: char): string {
    if s != [] && s[0] == c then s[1..] else s
  }

  /**
    re.match of `(?P<num>\d+):?(?P<short_name>\w+)? ?(?P<icons>.+)?`, anchored
    at the start only. Everything after the digits is optional and greedy,
    so the first attempt succeeds and each part takes its longest run.
    None is the failed match, on which `.groupdict()` raises.
   */
  function ParseWorkspaceName(name: string): (r: Option<NameParts>)
    ensures r.Some? <==> |name| > 0 && IsDigit(name[0])
  {
    var d := Run(name, Digit);
    if d == 0 then None
    else Some(PartsAfterColon(name[..d], SkipOptional(name[d..], ':')))
  }

  /** The rest of the match once `num` and the optional ':' are consumed: the word, the optional ' ', the icons. */
  function PartsAfterColon(num: string, s: string): NameParts {
    var w := Run(s, Word);
    var rest := SkipOptional(s[w..], ' ');
    NameParts(num, Group(s, w), Group(rest, Run(rest, NotNewline)))
  }

  /** The parts the regex can yield: digits, then an optional word, then optional text without newlines. */
  predicate WellFormed(p: NameParts) {
    |p.num| > 0 && AllDigits(p.num)
    && (p.shortName.Some? ==> p.shortName.value != "" && AllWordChars(p.shortName.value))
    && (p.icons.Some? ==> p.icons.value != "" && Lacks(p.icons.value, '\n'))
  }

  /** A non-empty greedy group is made of `cls` characters only. */
  lemma GroupOfRun(s: string, cls: CharClass)
    ensures var g := Group(s, Run(s, cls));
      g.Some? ==> g.value != [] && forall i :: 0 <= i < |g.value| ==> InClass(g.value[i], cls)
  {
    RunSpec(s, cls);
    var n := Run(s, cls);
    assert forall i :: 0 <= i < n ==> s[..n][i] == s[i];
  }

  /** Every successful parse yields well-formed parts, the number being a prefix of the name. */
  lemma ParseWellFormed(name: string)
    requires ParseWorkspaceName(name).Some?
    ensures var p := ParseWorkspaceName(name).value;
      WellFormed(p) && |p.num| <= |name| && name[..|p.num|] == p.num
  {
    var d := Run(name, Digit);
    var s := SkipOptional(name[d..], ':');
    var rest := SkipOptional(s[Run(s, Word)..], ' ');
    GroupOfRun(name, Digit);
    assert Group(name, d) == Some(name[..d]);
    GroupOfRun(s, Word);
    GroupOfRun(rest, NotNewline);
  }

  /** parse_workspace_name inverts construct_workspace_name on every well-formed triple. */
  lemma ParseConstruct(p: NameParts)
    requires WellFormed(p)
    ensures ParseWorkspaceName(ConstructWorkspaceName(p)) == Some(p)
  {
    if p.shortName.None? && p.icons.None? {
      ParseNumber(p.num);
    } else if p.icons.None? {
      assert ConstructWorkspaceName(p) == p.num + (":" + p.shortName.value);
      ParseNumberShort(p.num, p.shortName.value);
    } else if p.shortName.None? {
      assert ConstructWorkspaceName(p) == p.num + (": " + p.icons.value);
      ParseNumberIcons(p.num, p.icons.value);
    } else {
      assert ConstructWorkspaceName(p) == p.num + (":" + (p.shortName.value + (" " + p.icons.value)));
      ParseNumberShortIcons(p.num, p.shortName.value, p.icons.value);
    }
  }

  /** The digits of `num`, followed by text `s` that does not start with a digit, are the number group. */
  lemma ParseAfterNumber(num: string, s: string)
    requires |num| > 0 && AllDigits(num)
    requires s != [] ==> !IsDigit(s[0])
    ensures ParseWorkspaceName(num + s) == Some(PartsAfterColon(num, SkipOptional(s, ':')))
  {
    RunOf(num, s, Digit);
    assert (num + s)[..|num|] == num;
    assert (num + s)[|num|..] == s;
  }

  /** Icons `ic` after the optional ' ' are the icons group. */
  lemma IconsGroup(ic: string)
    requires Lacks(ic, '\n')
    ensures Group(ic, Run(ic, NotNewline)) == if ic == [] then None else Some(ic)
  {
    RunOf(ic, [], NotNewline);
    assert ic + [] == ic;
    assert ic[..|ic|] == ic;
  }

  /** A word `w` followed by `rest`, which does not start with a word character, is the short-name group. */
  lemma WordThen(num: string, w: string, rest: string)
    requires |w| > 0 && AllWordChars(w)
    requires rest != [] ==> !IsWordChar(rest[0])
    ensures var r := SkipOptional(rest, ' ');
      PartsAfterColon(num, w + rest) == NameParts(num, Some(w), Group(r, Run(r, NotNewline)))
  {
    RunOf(w, rest, Word);
    assert (w + rest)[..|w|] == w;
    assert (w + rest)[|w|..] == rest;
  }

  lemma ParseNumber(num: string)
    requires |num| > 0 && AllDigits(num)
    ensures ParseWorkspaceName(num) == Some(NameParts(num, None, None))
  {
    ParseAfterNumber(num, []);
    assert num + [] == num;
    RunOf([], [], Word);
  }

  lemma ParseNumberShort(num: string, w: string)
    requires |num| > 0 && AllDigits(num)
    requires |w| > 0 && AllWordChars(w)
    ensures ParseWorkspaceName(num + (":" + w)) == Some(NameParts(num, Some(w), None))
  {
    ParseAfterNumber(num, ":" + w);
    assert SkipOptional(":" + w, ':') == w + [];
    WordThen(num, w, []);
    IconsGroup([]);
  }

  lemma ParseNumberIcons(num: string, ic: string)
    requires |num| > 0 && AllDigits(num)
    requires |ic| > 0 && Lacks(ic, '\n')
    ensures ParseWorkspaceName(num + (": " + ic)) == Some(NameParts(num, None, Some(ic)))
  {
    ParseAfterNumber(num, ": " + ic);
    var s := " " + ic;
    assert SkipOptional(": " + ic, ':') == s;
    RunOf([], s, Word);
    assert s[0..] == s;
    assert SkipOptional(s, ' ') == ic;
    IconsGroup(ic);
  }

  lemma ParseNumberShortIcons(num: string, w: string, ic: string)
    requires |num| > 0 && AllDigits(num)
    requires |w| > 0 && AllWordChars(w)
    requires |ic| > 0 && Lacks(ic, '\n')
    ensures ParseWorkspaceName(num + (":" + (w + (" " + ic)))) == Some(NameParts(num, Some(w), Some(ic)))
  {
    ParseAfterNumber(num, ":" + (w + (" " + ic)));
    assert SkipOptional(":" + (w + (" " + ic)), ':') == w + (" " + ic);
    WordThen(num, w, " " + ic);
    assert SkipOptional(" " + ic, ' ') == ic;
    IconsGroup(ic);
  }

  /** The ':' after the number is optional: "3web" and "3:web" parse alike when the word starts with a non-digit. */
  lemma ColonOptional(num: string, w: string)
    requires |num| > 0 && AllDigits(num)
    requires |w| > 0 && AllWordChars(w) && !IsDigit(w[0])
    ensures ParseWorkspaceName(num + w) == Some(NameParts(num, Some(w), None))
    ensures ParseWorkspaceName(num + ":" + w) == Some(NameParts(num, Some(w), None))
  {
    ParseNumberShort(num, w);
    assert num + ":" + w == num + (":" + w);
    ParseAfterNumber(num, w);
    assert w[0] != ':';
    assert w == w + [];
    WordThen(num, w, []);
    IconsGroup([]);
  }

  // ---------------------------------------------------------------------
  // The quoted-value extraction of xprop
  // ---------------------------------------------------------------------

  /** Index of the first '"' in `t`, or |t| when there is none. */
  function NextQuote(t: string): (q: nat)
    ensures q <= |t| && Lacks(t[..q], '"')
    ensures q < |t| ==> t[q] == '"'
  {
    if t == [] || t[0] == '"' then 0
    else
      var q := 1 + NextQuote(t[1..]);
      assert t[..q] == [t[0]] + t[1..][..q - 1];
      q
  }

  /**
    re.findall('"([^"]+)"', s): scanning left to right, a quote followed by
    at least one non-quote character and a closing quote yields the text
    between them and the scan resumes after the closing quote; at any other
    position the scan moves on by one character.
   */
  function FindAll(s: string): (found: seq<string>)
    decreases |s|
  {
    if s == [] then []
    else if s[0] != '"' then FindAll(s[1..])
    else
      var q := NextQuote(s[1..]);
      if 0 < q < |s| - 1 then [s[1..q + 1]] + FindAll(s[q + 2..])
      else FindAll(s[1..])
  }

  /** Every extracted value is non-empty and free of quotes. */
  lemma {:induction false} FindAllQuoteFree(s: string)
    ensures forall i :: 0 <= i < |FindAll(s)| ==> |FindAll(s)[i]| > 0 && Lacks(FindAll(s)[i], '"')
    decreases |s|
  {
    if s != [] {
      var q := NextQuote(s[1..]);
      if s[0] == '"' && 0 < q < |s| - 1 {
        FindAllQuoteFree(s[q + 2..]);
        assert s[1..q + 1] == s[1..][..q];
      } else {
        FindAllQuoteFree(s[1..]);
      }
    }
  }

  /** Text without quotes yields nothing and does not disturb what follows. */
  lemma {:induction false} FindAllSkips(p: string, rest: string)
    requires Lacks(p, '"')
    ensures FindAll(p + rest) == FindAll(rest)
    decreases |p|
  {
    if p != [] {
      assert (p + rest)[0] == p[0];
      assert (p + rest)[1..] == p[1..] + rest;
      FindAllSkips(p[1..], rest);
    } else {
      assert p + rest == rest;
    }
  }

  /** A quoted non-empty quote-free value is extracted whole. */
  lemma TakesQuoted(x: string, rest: string)
    requires |x| > 0 && Lacks(x, '"')
    ensures FindAll("\"" + x + "\"" + rest) == [x] + FindAll(rest)
  {
    var s := "\"" + x + "\"" + rest;
    var t := s[1..];
    assert t == x + "\"" + rest;
    var q := NextQuote(t);
    assert t[|x|] == '"';
    assert forall i :: 0 <= i < |x| ==> t[i] == x[i];
    assert q == |x|;
    assert s[1..q + 1] == x;
    assert s[q + 2..] == rest;
  }

  /** Values in double quotes separated by ", ", as xprop prints a list property. */
  function QuoteAll(values: seq<string>): string
  {
    if values == [] then ""
    else if |values| == 1 then "\"" + values[0] + "\""
    else "\"" + values[0] + "\", " + QuoteAll(values[1..])
  }

  /** One line of xprop output: `WM_CLASS(STRING) = "instance", "Class"`. */
  function XpropLine(property: string, values: seq<string>): string
  {
    property + " = " + QuoteAll(values) + "\n"
  }

  lemma {:induction false} FindAllQuoteAll(values: seq<string>, rest: string)
    requires forall i :: 0 <= i < |values| ==> |values[i]| > 0 && Lacks(values[i], '"')
    requires Lacks(rest, '"')
    ensures FindAll(QuoteAll(values) + rest) == values
  {
    FindAllSkips(rest, []);
    assert rest + [] == rest;
    if |values| == 1 {
      TakesQuoted(values[0], rest);
    } else if |values| > 1 {
      var tail := QuoteAll(values[1..]) + rest;
      assert QuoteAll(values) + rest == "\"" + values[0] + "\"" + (", " + tail);
      TakesQuoted(values[0], ", " + tail);
      assert Lacks(", ", '"');
      FindAllSkips(", ", tail);
      FindAllQuoteAll(values[1..], rest);
      assert FindAll(tail) == values[1..];
      assert FindAll(QuoteAll(values) + rest) == [values[0]] + values[1..];
      assert [values[0]] + values[1..] == values;
    } else {
      assert QuoteAll(values) + rest == rest + [];
    }
  }

  /** Extraction recovers exactly the values xprop printed, in order. */
  lemma XpropRoundTrip(property: string, values: seq<string>)
    requires Lacks(property, '"')
    requires forall i :: 0 <= i < |values| ==> |values[i]| > 0 && Lacks(values[i], '"')
    ensures FindAll(XpropLine(property, values)) == values
  {
    var p := property + " = ";
    assert XpropLine(property, values) == p + (QuoteAll(values) + "\n");
    FindAllSkips(p, QuoteAll(values) + "\n");
    FindAllQuoteAll(values, "\n");
  }

  // ---------------------------------------------------------------------
  // icon_for_window
  // ---------------------------------------------------------------------

  const DefaultIcon: string := "*"

  /** `xprop(...) or []`: a failed xprop (None) and an empty list both give no classes. */
  function WmClasses(xpropOut: Option<string>): seq<string>
  {
    match xpropOut
    case None => []
    case Some(out) => FindAll(out)
  }

  /** No class before index `j` has an icon. */
  predicate FirstWithIcon(classes: seq<string>, icons: map<string, string>, j: nat)
    requires j <= |classes|
  {
    forall i :: 0 <= i < j ==> Lower(classes[i]) !in icons
  }

  /** The icon of the first class whose lower-cased form is a key of `icons`, or the default. */
  function FirstIcon(classes: seq<string>, icons: map<string, string>): string
  {
    if classes == [] then DefaultIcon
    else if Lower(classes[0]) in icons then icons[Lower(classes[0])]
    else FirstIcon(classes[1..], icons)
  }

  /** No class has an icon: the default; otherwise the icon of the first class that has one. */
  lemma {:induction false} FirstIconSpec(classes: seq<string>, icons: map<string, string>)
    ensures (forall i :: 0 <= i < |classes| ==> Lower(classes[i]) !in icons) ==> FirstIcon(classes, icons) == DefaultIcon
    ensures forall j :: 0 <= j < |classes| && Lower(classes[j]) in icons && FirstWithIcon(classes, icons, j) ==>
                FirstIcon(classes, icons) == icons[Lower(classes[j])]
  {
    if classes != [] && Lower(classes[0]) !in icons {
      FirstIconSpec(classes[1..], icons);
      assert forall j :: 1 <= j < |classes| ==> classes[1..][j - 1] == classes[j];
    }
  }

  method IconForWindow(xpropOut: Option<string>, icons: map<string, string>) returns (icon: string)
    ensures icon == FirstIcon(WmClasses(xpropOut), icons)
  {
    var wmClasses := WmClasses(xpropOut);
    for i := 0 to |wmClasses|
      invariant FirstIcon(wmClasses[i..], icons) == FirstIcon(wmClasses, icons)
    {
      var key := Lower(wmClasses[i]);
      if key in icons {
        return icons[key];
      }
      assert wmClasses[i..][1..] == wmClasses[i + 1..];
    }
    icon := DefaultIcon;
  }

  // ---------------------------------------------------------------------
  // rename_workspaces
  // ---------------------------------------------------------------------

  /**
    The number rename_workspaces gives the workspace at index `i` of the
    zipped lists: 1 for the first, then one more than the previous, or two
    more when its output differs from the previous workspace's.
   */
  function NumberAt(outputs: seq<string>, i: nat): (n: nat)
    requires i < |outputs|
    ensures i + 1 <= n <= 2 * i + 1
  {
    if i == 0 then 1
    else NumberAt(outputs, i - 1) + (if outputs[i] != outputs[i - 1] then 2 else 1)
  }

  /** How many times the output changes between consecutive workspaces up to index `i`. */
  function OutputChanges(outputs: seq<string>, i: nat): nat
    requires i < |outputs|
  {
    if i == 0 then 0
    else OutputChanges(outputs, i - 1) + (if outputs[i] != outputs[i - 1] then 1 else 0)
  }

  /** Each number is its position plus one, plus one gap per output change so far. */
  lemma {:induction false} NumberCountsGaps(outputs: seq<string>, i: nat)
    requires i < |outputs|
    ensures NumberAt(outputs, i) == i + 1 + OutputChanges(outputs, i)
  {
    if i > 0 {
      NumberCountsGaps(outputs, i - 1);
    }
  }

  /** Numbers strictly increase along the list. */
  lemma {:induction false} NumbersIncrease(outputs: seq<string>, i: nat, j: nat)
    requires i < j < |outputs|
    ensures NumberAt(outputs, i) < NumberAt(outputs, j)
    decreases j
  {
    if i < j - 1 {
      NumbersIncrease(outputs, i, j - 1);
    }
  }

  /** The docstring's example: three workspaces on one monitor and two on the next get [1, 2, 3], [5, 6]. */
  lemma TwoMonitorExample()
    ensures var outputs := ["left", "left", "left", "right", "right"];
      NumberAt(outputs, 0) == 1 && NumberAt(outputs, 1) == 2 && NumberAt(outputs, 2) == 3
      && NumberAt(outputs, 3) == 5 && NumberAt(outputs, 4) == 6
  {
  }

  /** A workspace of the tree: its name, its number and the xprop output of each leaf (None when xprop failed). */
  datatype PyWorkspace = PyWorkspace(name: string, num: int, leaves: seq<Option<string>>)

  /** One icon per leaf, in leaf order. */
  function Glyphs(leaves: seq<Option<string>>, icons: map<string, string>): (glyphs: seq<string>)
    ensures |glyphs| == |leaves|
  {
    if leaves == [] then []
    else Glyphs(leaves[..|leaves| - 1], icons) + [FirstIcon(WmClasses(leaves[|leaves| - 1]), icons)]
  }

  lemma {:induction false} GlyphsAt(leaves: seq<Option<string>>, icons: map<string, string>, i: nat)
    requires i < |leaves|
    ensures Glyphs(leaves, icons)[i] == FirstIcon(WmClasses(leaves[i]), icons)
  {
    if i < |leaves| - 1 {
      GlyphsAt(leaves[..|leaves| - 1], icons, i);
    }
  }

  /** The icons field: the icons joined by single spaces, plus a trailing space. */
  function IconsField(glyphs: seq<string>): (field: string)
    ensures |field| > 0
  {
    Join(glyphs, " ") + " "
  }

  /** `" ".join([icon_for_window(w) for w in ws.leaves()]) + " "`. */
  method WorkspaceIcons(leaves: seq<Option<string>>, icons: map<string, string>) returns (field: string)
    ensures field == IconsField(Glyphs(leaves, icons))
  {
    var glyphs := [];
    for j := 0 to |leaves|
      invariant glyphs == Glyphs(leaves[..j], icons)
    {
      var icon := IconForWindow(leaves[j], icons);
      assert leaves[..j + 1][..j] == leaves[..j];
      glyphs := glyphs + [icon];
    }
    assert leaves[..|leaves|] == leaves;
    field := Join(glyphs, " ") + " ";
  }

  /** A field the regex reads back whole as the icons group. */
  predicate FieldOk(field: string) {
    field != "" && Lacks(field, '\n')
  }

  /** The icons of `icons` are free of newlines (the default "*" is). */
  predicate NewlineFree(icons: map<string, string>) {
    forall key :: key in icons ==> Lacks(icons[key], '\n')
  }

  /** With newline-free icons the computed field reads back whole. */
  lemma FieldOkFromIcons(leaves: seq<Option<string>>, icons: map<string, string>)
    requires NewlineFree(icons)
    ensures FieldOk(IconsField(Glyphs(leaves, icons)))
  {
    var glyphs := Glyphs(leaves, icons);
    GlyphsNewlineFree(leaves, icons);
    JoinLacks(glyphs, " ", '\n');
    var field := IconsField(glyphs);
    forall j | 0 <= j < |field|
      ensures field[j] != '\n'
    {
      if j < |Join(glyphs, " ")| {
        assert field[j] == Join(glyphs, " ")[j];
      }
    }
  }

  lemma GlyphsNewlineFree(leaves: seq<Option<string>>, icons: map<string, string>)
    requires NewlineFree(icons)
    ensures forall i :: 0 <= i < |leaves| ==> Lacks(Glyphs(leaves, icons)[i], '\n')
  {
    forall i | 0 <= i < |leaves|
      ensures Lacks(Glyphs(leaves, icons)[i], '\n')
    {
      GlyphsAt(leaves, icons, i);
      var classes := WmClasses(leaves[i]);
      FirstIconSpec(classes, icons);
      if exists j :: 0 <= j < |classes| && Lower(classes[j]) in icons {
        var j := FirstMatch(classes, icons);
      }
    }
  }

  /** The first class with an icon, when there is one. */
  lemma FirstMatch(classes: seq<string>, icons: map<string, string>) returns (j: nat)
    requires exists j :: 0 <= j < |classes| && Lower(classes[j]) in icons
    ensures j < |classes| && Lower(classes[j]) in icons && FirstWithIcon(classes, icons, j)
  {
    j := 0;
    while Lower(classes[j]) !in icons
      invariant j < |classes|
      invariant FirstWithIcon(classes, icons, j)
      invariant exists m :: j <= m < |classes| && Lower(classes[m]) in icons
      decreases |classes| - j
    {
      j := j + 1;
    }
  }


  /**
    What the loop body of rename_workspaces has in hand for a workspace
    before it decides: the name and number, the parse of the name and the
    icons field of the leaves.
   */
  datatype Prepared = Prepared(name: string, num: int, parts: Option<NameParts>, field: string)

  function Prepare(ws: PyWorkspace, icons: map<string, string>): Prepared
  {
    Prepared(ws.name, ws.num, ParseWorkspaceName(ws.name), IconsField(Glyphs(ws.leaves, icons)))
  }

  /** The prepared values of the workspaces, in order. */
  function PrepareAll(wss: seq<PyWorkspace>, icons: map<string, string>): (prepared: seq<Prepared>)
    ensures |prepared| == |wss|
  {
    if wss == [] then [] else PrepareAll(wss[..|wss| - 1], icons) + [Prepare(wss[|wss| - 1], icons)]
  }

  lemma {:induction false} PrepareAllAt(wss: seq<PyWorkspace>, icons: map<string, string>, i: nat)
    requires i < |wss|
    ensures PrepareAll(wss, icons)[i] == Prepare(wss[i], icons)
  {
    if i < |wss| - 1 {
      PrepareAllAt(wss[..|wss| - 1], icons, i);
    }
  }

  /** The name rename_workspaces wants: the number (new or kept), the parsed short name and the icons field. */
  function NewName(p: Prepared, number: nat, renumber: bool): string
    requires p.parts.Some?
  {
    ConstructWorkspaceName(NameParts(IntToString(if renumber then number else p.num), p.parts.value.shortName, Some(p.field)))
  }

  /** One command sent to i3: rename the workspace `oldName` to `newName`. */
  datatype RenameCommand = RenameCommand(oldName: string, newName: string)

  /** The text of a command as the Python daemon formats it (no trailing ';'). */
  function CommandText(c: RenameCommand): string
  {
    "rename workspace \"" + c.oldName + "\" to \"" + c.newName + "\""
  }

  /** Two quoted values separated by quote-free text are extracted, in order. */
  lemma TwoQuoted(p: string, x: string, m: string, y: string)
    requires Lacks(p, '"') && Lacks(m, '"')
    requires |x| > 0 && Lacks(x, '"') && |y| > 0 && Lacks(y, '"')
    ensures FindAll(p + ("\"" + x + "\"" + (m + ("\"" + y + "\"" + [])))) == [x, y]
  {
    var tail := "\"" + y + "\"" + [];
    FindAllSkips(p, "\"" + x + "\"" + (m + tail));
    TakesQuoted(x, m + tail);
    FindAllSkips(m, tail);
    TakesQuoted(y, []);
    assert FindAll([]) == [];
  }

  /** The two names read back from a command's text, in order, when they are non-empty and free of quotes. */
  lemma CommandTextNames(c: RenameCommand)
    requires |c.oldName| > 0 && Lacks(c.oldName, '"')
    requires |c.newName| > 0 && Lacks(c.newName, '"')
    ensures FindAll(CommandText(c)) == [c.oldName, c.newName]
  {
    var p, m := "rename workspace ", " to ";
    assert Lacks(p, '"') && Lacks(m, '"');
    assert CommandText(c) == p + ("\"" + c.oldName + "\"" + (m + ("\"" + c.newName + "\"" + [])));
    TwoQuoted(p, c.oldName, m, c.newName);
  }

  /** The commands sent so far, in order, and whether the loop got this far without an exception. */
  datatype Outcome = Outcome(cmds: seq<RenameCommand>, completed: bool)

  /**
    The name rename_workspaces wants for each of the first `k` pairs of
    zip(outputs, prepared). A name that does not parse has no wanted name
    (the loop raises there); its own name stands in.
   */
  function WantedNames(outputs: seq<string>, prepared: seq<Prepared>, renumber: bool, k: nat): (wanted: seq<string>)
    requires k <= |outputs| && k <= |prepared|
    ensures |wanted| == k
  {
    if k == 0 then []
    else
      var p := prepared[k - 1];
      WantedNames(outputs, prepared, renumber, k - 1)
        + [if p.parts.Some? then NewName(p, NumberAt(outputs, k - 1), renumber) else p.name]
  }

  lemma {:induction false} WantedNamesAt(outputs: seq<string>, prepared: seq<Prepared>, renumber: bool, k: nat, i: nat)
    requires k <= |outputs| && k <= |prepared| && i < k && prepared[i].parts.Some?
    ensures WantedNames(outputs, prepared, renumber, k)[i] == NewName(prepared[i], NumberAt(outputs, i), renumber)
  {
    if i < k - 1 {
      WantedNamesAt(outputs, prepared, renumber, k - 1, i);
    }
  }

  /**
    rename_workspaces over the first `k` workspaces, given the name wanted
    for each: a name that does not parse raises, which ends the loop with
    the commands already sent; a workspace is renamed only when its name
    differs from the wanted one.
   */
  function RenameRun(prepared: seq<Prepared>, wanted: seq<string>, k: nat): Outcome
    requires k <= |prepared| && k <= |wanted|
  {
    if k == 0 then Outcome([], true)
    else
      var prev := RenameRun(prepared, wanted, k - 1);
      var p := prepared[k - 1];
      if !prev.completed then prev
      else if p.parts.None? then Outcome(prev.cmds, false)
      else if p.name != wanted[k - 1] then Outcome(prev.cmds + [RenameCommand(p.name, wanted[k - 1])], true)
      else prev
  }

  /** Once an exception has ended the loop, later workspaces change nothing. */
  lemma {:induction false} RenameRunHalted(prepared: seq<Prepared>, wanted: seq<string>, k: nat, m: nat)
    requires k <= m <= |prepared| && m <= |wanted|
    requires !RenameRun(prepared, wanted, k).completed
    ensures RenameRun(prepared, wanted, m) == RenameRun(prepared, wanted, k)
    decreases m
  {
    if k < m {
      RenameRunHalted(prepared, wanted, k, m - 1);
    }
  }

  /** The loop's step: a workspace whose name parsed is renamed when it differs from its wanted name. */
  lemma RenameRunNext(prepared: seq<Prepared>, wanted: seq<string>, k: nat)
    requires k < |prepared| && k < |wanted| && prepared[k].parts.Some?
    requires RenameRun(prepared, wanted, k).completed
    ensures var prev := RenameRun(prepared, wanted, k);
      RenameRun(prepared, wanted, k + 1)
        == if prepared[k].name != wanted[k] then Outcome(prev.cmds + [RenameCommand(prepared[k].name, wanted[k])], true)
           else prev
  {
  }

  function Min(a: nat, b: nat): nat {
    if a < b then a else b
  }

  /**
    The part of the loop body that reads workspace `k`: parse its name,
    join the icons of its leaves and build the new name from the number.
   */
  method RenameOne(wss: seq<PyWorkspace>, k: nat, newNum: nat, renumber: bool, icons: map<string, string>,
                   ghost outputs: seq<string>, ghost count: nat) returns (nameParts: Option<NameParts>, newName: string)
    requires k < count <= |outputs| && count <= |wss| && newNum == NumberAt(outputs, k)
    ensures PrepareAll(wss, icons)[k].name == wss[k].name && nameParts == PrepareAll(wss, icons)[k].parts
    ensures nameParts.Some? ==> newName == WantedNames(outputs, PrepareAll(wss, icons), renumber, count)[k]
  {
    var ws := wss[k];
    PrepareAllAt(wss, icons, k);
    nameParts := ParseWorkspaceName(ws.name);
    var newIcons := WorkspaceIcons(ws.leaves, icons);
    newName := ConstructWorkspaceName(NameParts(
      IntToString(if renumber then newNum else ws.num),
      if nameParts.Some? then nameParts.value.shortName else None,
      Some(newIcons)));
    if nameParts.Some? {
      WantedNamesAt(outputs, PrepareAll(wss, icons), renumber, count, k);
    }
  }

  method RenameWorkspaces(outputs: seq<string>, wss: seq<PyWorkspace>, renumber: bool,
                          icons: map<string, string>) returns (cmds: seq<RenameCommand>, ok: bool)
    ensures var prepared := PrepareAll(wss, icons);
      var count := Min(|outputs|, |wss|);
      Outcome(cmds, ok) == RenameRun(prepared, WantedNames(outputs, prepared, renumber, count), count)
  {
    ghost var prepared := PrepareAll(wss, icons);
    var count := Min(|outputs|, |wss|);
    ghost var wanted := WantedNames(outputs, prepared, renumber, count);
    var prevOutput: Option<string> := None;
    var n := 1;
    cmds := [];
    for k := 0 to count
      invariant k == 0 ==> prevOutput == None && n == 1
      invariant k > 0 ==> prevOutput == Some(outputs[k - 1]) && n == NumberAt(outputs, k - 1) + 1
      invariant RenameRun(prepared, wanted, k) == Outcome(cmds, true)
    {
      var output := outputs[k];
      if prevOutput.Some? && output != prevOutput.value {
        n := n + 1;
      }
      prevOutput := Some(output);
      var newNum := n;
      n := n + 1;

      var nameParts, newName := RenameOne(wss, k, newNum, renumber, icons, outputs, count);
      if nameParts.None? {
        RenameRunHalted(prepared, wanted, k + 1, count);
        return cmds, false;
      }
      RenameRunNext(prepared, wanted, k);
      if wss[k].name != newName {
        cmds := cmds + [RenameCommand(wss[k].name, newName)];
      }
    }
    ok := true;
  }

  /** Whether every name among the first `k` prepared workspaces parsed. */
  predicate AllParse(prepared: seq<Prepared>, k: nat)
    requires k <= |prepared|
  {
    forall i :: 0 <= i < k ==> prepared[i].parts.Some?
  }

  /** Command `c` renames workspace `i` from its current name to a different, wanted one. */
  predicate Sent(prepared: seq<Prepared>, wanted: seq<string>, i: nat, c: RenameCommand)
    requires i < |prepared| && i < |wanted|
  {
    prepared[i].parts.Some? && prepared[i].name != wanted[i] && c == RenameCommand(prepared[i].name, wanted[i])
  }

  /** The loop completes exactly when every name parses. */
  lemma {:induction false} RenameRunCompletes(prepared: seq<Prepared>, wanted: seq<string>, k: nat)
    requires k <= |prepared| && k <= |wanted|
    ensures RenameRun(prepared, wanted, k).completed <==> AllParse(prepared, k)
  {
    if k > 0 {
      RenameRunCompletes(prepared, wanted, k - 1);
    }
  }

  /**
    The loop sends at most one command per workspace, and each command
    renames a workspace whose name parsed and differs from the name wanted
    for it.
   */
  lemma {:induction false} RenameRunSound(prepared: seq<Prepared>, wanted: seq<string>, k: nat)
    requires k <= |prepared| && k <= |wanted|
    ensures var r := RenameRun(prepared, wanted, k);
      |r.cmds| <= k && forall c :: c in r.cmds ==> exists i :: 0 <= i < k && Sent(prepared, wanted, i, c)
  {
    if k > 0 {
      RenameRunSound(prepared, wanted, k - 1);
      var prev := RenameRun(prepared, wanted, k - 1);
      var r := RenameRun(prepared, wanted, k);
      forall c | c in r.cmds
        ensures exists i :: 0 <= i < k && Sent(prepared, wanted, i, c)
      {
        if c in prev.cmds {
          var i :| 0 <= i < k - 1 && Sent(prepared, wanted, i, c);
        } else {
          assert Sent(prepared, wanted, k - 1, c);
        }
      }
    }
  }

  /**
    Conversely, when every name parses, each workspace whose name differs
    from the wanted one gets its rename command.
   */
  lemma {:induction false} RenameRunSendsEveryChange(prepared: seq<Prepared>, wanted: seq<string>, k: nat)
    requires k <= |prepared| && k <= |wanted| && AllParse(prepared, k)
    ensures forall i :: 0 <= i < k && prepared[i].name != wanted[i] ==>
              RenameCommand(prepared[i].name, wanted[i]) in RenameRun(prepared, wanted, k).cmds
  {
    if k > 0 {
      RenameRunSendsEveryChange(prepared, wanted, k - 1);
      RenameRunCompletes(prepared, wanted, k - 1);
    }
  }

  /** A run in which every name parses and already equals the wanted one completes without a command. */
  lemma {:induction false} RenameRunQuiet(prepared: seq<Prepared>, wanted: seq<string>, k: nat)
    requires k <= |prepared| && k <= |wanted|
    requires forall i :: 0 <= i < k ==> prepared[i].parts.Some? && wanted[i] == prepared[i].name
    ensures RenameRun(prepared, wanted, k) == Outcome([], true)
  {
    if k > 0 {
      RenameRunQuiet(prepared, wanted, k - 1);
    }
  }

  /**
    The name rename_workspaces wants parses back to the wanted number, the
    short name kept from the current name, and the icons field.
   */
  lemma NewNameReparses(p: Prepared, number: nat, renumber: bool)
    requires renumber || p.num >= 0
    requires p.parts.Some? && WellFormed(p.parts.value) && FieldOk(p.field)
    ensures ParseWorkspaceName(NewName(p, number, renumber))
      == Some(NameParts(IntToString(if renumber then number else p.num), p.parts.value.shortName, Some(p.field)))
  {
    ParseConstruct(NameParts(IntToString(if renumber then number else p.num), p.parts.value.shortName, Some(p.field)));
  }

  /**
    Renaming is stable: once a workspace carries the wanted name, the next
    run (same number and icons field) parses it and wants the same name again.
   */
  lemma RenameIsStable(p: Prepared, number: nat, renumber: bool)
    requires renumber || p.num >= 0
    requires p.parts.Some? && WellFormed(p.parts.value) && FieldOk(p.field)
    ensures var wanted := NewName(p, number, renumber);
      var again := p.(name := wanted, parts := ParseWorkspaceName(wanted));
      again.parts.Some? && NewName(again, number, renumber) == wanted
  {
    NewNameReparses(p, number, renumber);
  }

  /** Workspace `i` renamed as the first run wanted is, in the second run, parsed and wanted under the same name. */
  lemma SecondRunQuietAt(outputs: seq<string>, wss: seq<PyWorkspace>, renamed: seq<PyWorkspace>,
                         renumber: bool, icons: map<string, string>, i: nat)
    requires i < |outputs| && i < |wss| == |renamed|
    requires ParseWorkspaceName(wss[i].name).Some?
    requires renumber || wss[i].num >= 0
    requires NewlineFree(icons)
    requires renamed[i].leaves == wss[i].leaves && renamed[i].num == wss[i].num
    requires renamed[i].name == NewName(Prepare(wss[i], icons), NumberAt(outputs, i), renumber)
    ensures var p := PrepareAll(renamed, icons)[i];
      p.parts.Some? && NewName(p, NumberAt(outputs, i), renumber) == p.name
  {
    var first := Prepare(wss[i], icons);
    PrepareAllAt(renamed, icons, i);
    ParseWellFormed(wss[i].name);
    FieldOkFromIcons(wss[i].leaves, icons);
    RenameIsStable(first, NumberAt(outputs, i), renumber);
    assert Prepare(renamed[i], icons) == first.(name := renamed[i].name, parts := ParseWorkspaceName(renamed[i].name));
  }

  /**
    A second run right after a first one in which every name parsed, with
    the same outputs, settings, numbers and leaves and every workspace now
    carrying the name the first run wanted, completes without a command.
   */
  lemma {:induction false} SecondRunQuiet(outputs: seq<string>, wss: seq<PyWorkspace>, renamed: seq<PyWorkspace>,
                                          renumber: bool, icons: map<string, string>)
    requires |renamed| == |wss|
    requires forall i :: 0 <= i < Min(|outputs|, |wss|) ==> ParseWorkspaceName(wss[i].name).Some?
    requires forall i :: 0 <= i < |wss| ==> renumber || wss[i].num >= 0
    requires NewlineFree(icons)
    requires forall i :: 0 <= i < |wss| ==> renamed[i].leaves == wss[i].leaves && renamed[i].num == wss[i].num
    requires forall i :: 0 <= i < Min(|outputs|, |wss|) ==>
               renamed[i].name == WantedNames(outputs, PrepareAll(wss, icons), renumber, Min(|outputs|, |wss|))[i]
    ensures var second := PrepareAll(renamed, icons);
      var count := Min(|outputs|, |wss|);
      RenameRun(second, WantedNames(outputs, second, renumber, count), count) == Outcome([], true)
  {
    var count := Min(|outputs|, |wss|);
    var second := PrepareAll(renamed, icons);
    var wanted := WantedNames(outputs, second, renumber, count);
    forall i | 0 <= i < count
      ensures second[i].parts.Some? && wanted[i] == second[i].name
    {
      PrepareAllAt(wss, icons, i);
      WantedNamesAt(outputs, PrepareAll(wss, icons), renumber, count, i);
      SecondRunQuietAt(outputs, wss, renamed, renumber, icons, i);
      WantedNamesAt(outputs, second, renumber, count, i);
    }
    RenameRunQuiet(second, wanted, count);
  }

  // ---------------------------------------------------------------------
  // on_exit
  // ---------------------------------------------------------------------

  /** The parse of each name, in order. */
  function ParseAll(names: seq<string>): (parsed: seq<Option<NameParts>>)
    ensures |parsed| == |names|
  {
    if names == [] then [] else ParseAll(names[..|names| - 1]) + [ParseWorkspaceName(names[|names| - 1])]
  }

  lemma {:induction false} ParseAllAt(names: seq<string>, i: nat)
    requires i < |names|
    ensures ParseAll(names)[i] == ParseWorkspaceName(names[i])
  {
    if i < |names| - 1 {
      ParseAllAt(names[..|names| - 1], i);
    }
  }

  /** The name on_exit wants: the number and short name kept, the icons dropped. */
  function ExitName(parts: NameParts): string
  {
    ConstructWorkspaceName(NameParts(parts.num, parts.shortName, None))
  }

  /**
    Whether `new_name` is the very object `workspace.name` in CPython: str()
    of a str returns it unchanged, and the num group is the name object
    itself exactly when the digits span the whole name; a short name makes
    a fresh string.
   */
  predicate ExitNameIsSameObject(name: string, parts: NameParts) {
    !Truthy(parts.shortName) && |parts.num| == |name|
  }

  /** The commands on_exit sends for the first `k` workspaces, whose names parsed to `parsed`, and whether it got that far. */
  function ExitRun(names: seq<string>, parsed: seq<Option<NameParts>>, k: nat): Outcome
    requires k <= |names| && k <= |parsed|
  {
    if k == 0 then Outcome([], true)
    else
      var prev := ExitRun(names, parsed, k - 1);
      var name := names[k - 1];
      if !prev.completed then prev
      else match parsed[k - 1]
        case None => Outcome(prev.cmds, false)
        case Some(parts) =>
          if !ExitNameIsSameObject(name, parts) then
            Outcome(prev.cmds + [RenameCommand(name, ExitName(parts))], true)
          else prev
  }

  lemma {:induction false} ExitRunHalted(names: seq<string>, parsed: seq<Option<NameParts>>, k: nat, m: nat)
    requires k <= m <= |names| && m <= |parsed|
    requires !ExitRun(names, parsed, k).completed
    ensures ExitRun(names, parsed, m) == ExitRun(names, parsed, k)
    decreases m
  {
    if k < m {
      ExitRunHalted(names, parsed, k, m - 1);
    }
  }

  method OnExit(names: seq<string>) returns (cmds: seq<RenameCommand>, ok: bool)
    ensures Outcome(cmds, ok) == ExitRun(names, ParseAll(names), |names|)
  {
    ghost var parsed := ParseAll(names);
    cmds := [];
    for k := 0 to |names|
      invariant ExitRun(names, parsed, k) == Outcome(cmds, true)
    {
      var name := names[k];
      ParseAllAt(names, k);
      var nameParts := ParseWorkspaceName(name);
      if nameParts.None? {
        ExitRunHalted(names, parsed, k + 1, |names|);
        return cmds, false;
      }
      var newName := ConstructWorkspaceName(NameParts(nameParts.value.num, nameParts.value.shortName, None));
      if !ExitNameIsSameObject(name, nameParts.value) {
        cmds := cmds + [RenameCommand(name, newName)];
      }
    }
    ok := true;
  }

  /** Command `c` renames workspace `i`, not the same object as its exit name, to that name. */
  predicate ExitSent(names: seq<string>, parsed: seq<Option<NameParts>>, i: nat, c: RenameCommand)
    requires i < |names| && i < |parsed|
  {
    parsed[i].Some? && !ExitNameIsSameObject(names[i], parsed[i].value)
    && c == RenameCommand(names[i], ExitName(parsed[i].value))
  }

  /**
    on_exit completes exactly when every name parses; each command it sends
    renames a workspace to its exit name, and every workspace whose exit
    name is a new object gets one.
   */
  lemma {:induction false} ExitRunSpec(names: seq<string>, parsed: seq<Option<NameParts>>, k: nat)
    requires k <= |names| && k <= |parsed|
    ensures var r := ExitRun(names, parsed, k);
      (r.completed <==> forall i :: 0 <= i < k ==> parsed[i].Some?)
      && |r.cmds| <= k
      && (forall c :: c in r.cmds ==> exists i :: 0 <= i < k && ExitSent(names, parsed, i, c))
      && (r.completed ==> forall i :: 0 <= i < k && !ExitNameIsSameObject(names[i], parsed[i].value) ==>
            RenameCommand(names[i], ExitName(parsed[i].value)) in r.cmds)
  {
    if k > 0 {
      ExitRunSpec(names, parsed, k - 1);
      var prev := ExitRun(names, parsed, k - 1);
      var r := ExitRun(names, parsed, k);
      forall c | c in r.cmds
        ensures exists i :: 0 <= i < k && ExitSent(names, parsed, i, c)
      {
        if c in prev.cmds {
          var i :| 0 <= i < k - 1 && ExitSent(names, parsed, i, c);
        } else {
          assert ExitSent(names, parsed, k - 1, c);
        }
      }
    }
  }

  /** The exit name keeps the number and the short name and drops the icons. */
  lemma ExitNameStrips(name: string)
    requires ParseWorkspaceName(name).Some?
    ensures var parts := ParseWorkspaceName(name).value;
      ParseWorkspaceName(ExitName(parts)) == Some(NameParts(parts.num, parts.shortName, None))
  {
    var parts := ParseWorkspaceName(name).value;
    ParseWellFormed(name);
    ParseConstruct(NameParts(parts.num, parts.shortName, None));
  }

  /**
    The identity test skips a workspace exactly when its name is all digits
    (and then the exit name equals it); every other name is renamed.
   */
  lemma ExitSkipsOnlyDigitNames(name: string)
    requires ParseWorkspaceName(name).Some?
    ensures var parts := ParseWorkspaceName(name).value;
      (ExitNameIsSameObject(name, parts) <==> AllDigits(name))
      && (AllDigits(name) ==> ExitName(parts) == name)
  {
    var parts := ParseWorkspaceName(name).value;
    ParseWellFormed(name);
    RunSpec(name, Digit);
    var d := |parts.num|;
    assert forall j :: 0 <= j < d ==> IsDigit(name[j]) by {
      forall j | 0 <= j < d
        ensures IsDigit(name[j])
      {
        assert name[..d][j] == name[j];
      }
    }
    if AllDigits(name) {
      assert Run(name, Digit) == |name|;
      assert name[..|name|] == name;
      assert name[|name|..] == [];
    }
  }

  /**
    Unlike a comparison by value, the identity test renames a name with a
    short name and no icons ("3:web", say) to the equal name.
   */
  lemma ExitRenamesEqualName(num: string, w: string)
    requires |num| > 0 && AllDigits(num)
    requires |w| > 0 && AllWordChars(w)
    ensures var name := num + (":" + w);
      ExitRun([name], ParseAll([name]), 1) == Outcome([RenameCommand(name, name)], true)
  {
    var name := num + (":" + w);
    var parts := NameParts(num, Some(w), None);
    ParseNumberShort(num, w);
    ParseAllAt([name], 0);
    assert ExitName(parts) == num + ":" + w + "";
    assert num + ":" + w + "" == name;
  }
}
