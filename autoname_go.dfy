/**
  The Go daemon (main.go): glyph lookup, workspace label synthesis, the
  rename walk over the i3 tree, the reset batch and the event filter.
  The i3 IPC calls are not modelled: the workspace list and the tree come
  in as values and the command text the daemon would send comes out.
 */
module AutonameGo {
  import opened Wrappers
  import opened Text

  /** The `window_properties` of an i3 node; `wmClass` is i3's `class`. */
  datatype WindowProperties = WindowProperties(wmClass: string, instance: string)

  /** A node of the i3 tree with its tiled (`nodes`) and floating children. */
  datatype Node = Node(
    id: int,
    name: string,
    nodes: seq<Node>,
    floatingNodes: seq<Node>,
    windowProperties: WindowProperties)

  /** An entry of i3's workspace list; `num` is -1 for a named workspace. */
  datatype Workspace = Workspace(id: int, num: int, name: string)

  // ---------------------------------------------------------------------
  // getWinIcon
  // ---------------------------------------------------------------------

  const FallbackGlyph: string := "\U{f128}"
  const ChromeGlyph: string := "\U{f268}"
  const WhatsAppGlyph: string := "\U{faa2}"
  const FirefoxGlyph: string := "\U{f738}"
  /** The Chrome app instance of WhatsApp. */
  const WhatsAppInstance: string := "crx_hnpfjngllnobngcgfapefoaidbinmjnm"

  const BrowserClasses: set<string> := {"Google-chrome", "Chromium-browser"}

  /** The classes the switch names, other than the browsers, with their glyphs. */
  const GlyphTable: map<string, string> := map[
    "Arandr" := "\U{f878}",
    "Atril" := "\U{f725}",
    "Audacity" := "\U{f025}",
    "Blueberry.py" := "\U{f293}",
    "Caja" := "\U{f07b}",
    "Io.github.celluloid_player.Celluloid" := "\U{f144}",
    "Code" := "\U{e70c}",
    "Codium" := "\U{e70c}",
    "VSCodium" := "\U{e70c}",
    "Firefox" := FirefoxGlyph,
    "KeePassXC" := "\U{f43d}",
    "Mate-screenshot" := "\U{f5ff}",
    "Mate-terminal" := "\U{e795}",
    "Xfce4-terminal" := "\U{e795}",
    "Mate-volume-control" := "\U{f9c2}",
    "RosaImageWriter" := "\U{faed}",
    "Transmission-gtk" := "\U{f019}",
    "VirtualBox" := "\U{f6a6}",
    "VirtualBox Machine" := "\U{f6a6}",
    "VirtualBox Manager" := "\U{f6a6}",
    "VirtualBoxVM" := "\U{f6a6}",
    "zoom" := "\U{f03d}"
  ]

  /** getWinIcon: exact, case-sensitive match on the class, in the order of the switch. */
  function WinIcon(prop: WindowProperties): (glyph: string)
    ensures |glyph| == 1
  {
    var c := prop.wmClass;
    if c == "Arandr" then "\U{f878}"
    else if c == "Atril" then "\U{f725}"
    else if c == "Audacity" then "\U{f025}"
    else if c == "Blueberry.py" then "\U{f293}"
    else if c == "Caja" then "\U{f07b}"
    else if c == "Io.github.celluloid_player.Celluloid" then "\U{f144}"
    else if c == "Code" || c == "Codium" || c == "VSCodium" then "\U{e70c}"
    else if c == "Firefox" then FirefoxGlyph
    else if c == "Google-chrome" || c == "Chromium-browser" then
      if prop.instance == WhatsAppInstance then WhatsAppGlyph else ChromeGlyph
    else if c == "KeePassXC" then "\U{f43d}"
    else if c == "Mate-screenshot" then "\U{f5ff}"
    else if c == "Mate-terminal" || c == "Xfce4-terminal" then "\U{e795}"
    else if c == "Mate-volume-control" then "\U{f9c2}"
    else if c == "RosaImageWriter" then "\U{faed}"
    else if c == "Transmission-gtk" then "\U{f019}"
    else if c == "VirtualBox" || c == "VirtualBox Machine" || c == "VirtualBox Manager" || c == "VirtualBoxVM" then "\U{f6a6}"
    else if c == "zoom" then "\U{f03d}"
    else FallbackGlyph
  }

  /** The two browser classes dispatch on the instance: the WhatsApp app or the browser itself. */
  lemma WinIconBrowsers(prop: WindowProperties)
    ensures prop.wmClass in BrowserClasses ==>
      WinIcon(prop) == (if prop.instance == WhatsAppInstance then WhatsAppGlyph else ChromeGlyph)
  {
  }

  /** The switch agrees with the table: every other class it names gets its glyph. */
  lemma WinIconByTable(prop: WindowProperties)
    ensures prop.wmClass in GlyphTable ==> WinIcon(prop) == GlyphTable[prop.wmClass]
  {
  }

  /** Exactly the classes the switch does not name get the fallback glyph; no class is an error. */
  lemma WinIconFallback(prop: WindowProperties)
    ensures WinIcon(prop) == FallbackGlyph <==> prop.wmClass !in GlyphTable && prop.wmClass !in BrowserClasses
  {
  }

  /** Matching is case-sensitive: "Firefox" has its glyph, "firefox" gets the fallback. */
  lemma WinIconCaseSensitive(instance: string)
    ensures WinIcon(WindowProperties("Firefox", instance)) == FirefoxGlyph
    ensures WinIcon(WindowProperties("firefox", instance)) == FallbackGlyph
  {
  }

  // ---------------------------------------------------------------------
  // getWsName
  // ---------------------------------------------------------------------

  /**
    The leaf windows the helper closure of getWsName meets among the first
    `k` tiled children of `node`: a child without tiled children is a leaf,
    any other child is searched in turn. Floating children are not looked at.
   */
  function LeavesUpTo(node: Node, k: nat): seq<WindowProperties>
    requires k <= |node.nodes|
    decreases node, 0, k
  {
    if k == 0 then []
    else
      var child := node.nodes[k - 1];
      LeavesUpTo(node, k - 1) + ChildLeaves(child)
  }

  /** A tiled child with no children of its own is a leaf window; any other child is searched. */
  function ChildLeaves(child: Node): seq<WindowProperties>
    decreases child, 1
  {
    if child.nodes == [] then [child.windowProperties] else LeavesUpTo(child, |child.nodes|)
  }

  function Leaves(node: Node): seq<WindowProperties>
  {
    LeavesUpTo(node, |node.nodes|)
  }

  /** The leaves of the floating containers, each searched like a tiled node. */
  function FloatingLeaves(floating: seq<Node>): seq<WindowProperties>
  {
    if floating == [] then []
    else FloatingLeaves(floating[..|floating| - 1]) + Leaves(floating[|floating| - 1])
  }

  /** All leaf windows of a workspace: tiled ones first, then floating ones. */
  function WorkspaceLeaves(ws: Node): seq<WindowProperties>
  {
    Leaves(ws) + FloatingLeaves(ws.floatingNodes)
  }

  /** One glyph per window, in order. */
  function Icons(windows: seq<WindowProperties>): (glyphs: seq<string>)
    ensures |glyphs| == |windows|
  {
    if windows == [] then [] else Icons(windows[..|windows| - 1]) + [WinIcon(windows[|windows| - 1])]
  }

  lemma {:induction false} IconsAt(windows: seq<WindowProperties>, i: nat)
    requires i < |windows|
    ensures Icons(windows)[i] == WinIcon(windows[i])
  {
    if i < |windows| - 1 {
      IconsAt(windows[..|windows| - 1], i);
    }
  }

  lemma IconsSnoc(windows: seq<WindowProperties>, w: WindowProperties)
    ensures Icons(windows + [w]) == Icons(windows) + [WinIcon(w)]
  {
    assert (windows + [w])[..|windows|] == windows;
  }

  lemma {:induction false} IconsAppend(a: seq<WindowProperties>, b: seq<WindowProperties>)
    ensures Icons(a + b) == Icons(a) + Icons(b)
    decreases |b|
  {
    if b == [] {
      assert a + b == a;
    } else {
      assert (a + b)[..|a + b| - 1] == a + b[..|b| - 1];
      IconsAppend(a, b[..|b| - 1]);
    }
  }

  /** The leaves of the first k + 1 tiled children: those of the first k, then the (k+1)-th child's. */
  lemma LeavesUpToStep(node: Node, k: nat)
    requires k < |node.nodes|
    ensures LeavesUpTo(node, k + 1) == LeavesUpTo(node, k)
      + (if node.nodes[k].nodes == [] then [node.nodes[k].windowProperties] else Leaves(node.nodes[k]))
  {
  }

  /** The leaves of a node depend on its tiled children only. */
  lemma {:induction false} LeavesUpToSameChildren(a: Node, b: Node, k: nat)
    requires a.nodes == b.nodes && k <= |a.nodes|
    ensures LeavesUpTo(a, k) == LeavesUpTo(b, k)
  {
    if k > 0 {
      LeavesUpToSameChildren(a, b, k - 1);
    }
  }

  /** The label getWsName gives the workspace node `ws` numbered `num`. */
  function WsName(ws: Node, num: int): string
  {
    var glyphs := Icons(WorkspaceLeaves(ws));
    if |glyphs| == 0 then IntToString(num) else IntToString(num) + ": " + Concat(glyphs)
  }

  /** One step of the loop of appendLeafIcons: the glyphs of child `i` follow those of the children before it. */
  lemma AppendLeafIconsStep(node: Node, i: nat, winIcons: seq<string>, result: seq<string>, next: seq<string>)
    requires i < |node.nodes| && result == winIcons + Icons(LeavesUpTo(node, i))
    requires next == result + Icons(ChildLeaves(node.nodes[i]))
    ensures next == winIcons + Icons(LeavesUpTo(node, i + 1))
  {
    LeavesUpToStep(node, i);
    IconsAppend(LeavesUpTo(node, i), ChildLeaves(node.nodes[i]));
    AppendAssoc(winIcons, Icons(LeavesUpTo(node, i)), Icons(ChildLeaves(node.nodes[i])));
  }

  /** The recursive helper of getWsName: appends one glyph per leaf below `node`. */
  method AppendLeafIcons(node: Node, winIcons: seq<string>) returns (result: seq<string>)
    ensures result == winIcons + Icons(Leaves(node))
    decreases node, 0
  {
    result := winIcons;
    for i := 0 to |node.nodes|
      invariant result == winIcons + Icons(LeavesUpTo(node, i))
    {
      var next := AppendChildIcons(node.nodes[i], result);
      AppendLeafIconsStep(node, i, winIcons, result, next);
      result := next;
    }
  }

  /** The body of appendLeafIcons' loop: a leaf adds its glyph, a container recurses. */
  method AppendChildIcons(child: Node, winIcons: seq<string>) returns (result: seq<string>)
    ensures result == winIcons + Icons(ChildLeaves(child))
    decreases child, 1
  {
    if |child.nodes| == 0 {
      IconsSnoc([], child.windowProperties);
      result := winIcons + [WinIcon(child.windowProperties)];
    } else {
      result := AppendLeafIcons(child, winIcons);
    }
  }

  /** getWsName: the tiled leaves, then the leaves of each floating container. */
  method GetWsName(node: Node, wsNum: int) returns (name: string)
    ensures name == WsName(node, wsNum)
  {
    var winIcons := AppendLeafIcons(node, []);
    var floating := node.floatingNodes;
    for i := 0 to |floating|
      invariant winIcons == Icons(Leaves(node)) + Icons(FloatingLeaves(floating[..i]))
    {
      FloatingLeavesStep(floating, i);
      IconsAppend(FloatingLeaves(floating[..i]), Leaves(floating[i]));
      AppendAssoc(Icons(Leaves(node)), Icons(FloatingLeaves(floating[..i])), Icons(Leaves(floating[i])));
      winIcons := AppendLeafIcons(floating[i], winIcons);
    }
    assert floating[..|floating|] == floating;
    IconsAppend(Leaves(node), FloatingLeaves(floating));
    if |winIcons| == 0 {
      name := IntToString(wsNum);
    } else {
      name := IntToString(wsNum) + ": " + Concat(winIcons);
    }
  }

  lemma FloatingLeavesStep(floating: seq<Node>, i: nat)
    requires i < |floating|
    ensures FloatingLeaves(floating[..i + 1]) == FloatingLeaves(floating[..i]) + Leaves(floating[i])
  {
    assert floating[..i + 1][..i] == floating[..i];
  }

  /** A workspace without leaf windows is labelled with its bare decimal number, as `%d` writes it. */
  lemma WsNameWithoutLeaves(ws: Node, num: nat)
    requires WorkspaceLeaves(ws) == []
    ensures WsName(ws, num) == IntToString(num)
    ensures AllDigits(WsName(ws, num)) && ParseDecimal(WsName(ws, num)) == num
    ensures WsName(ws, num)[0] == '0' <==> num == 0
  {
  }

  /**
    A workspace with k > 0 leaf windows is labelled "<num>: " followed by
    exactly k glyphs, the i-th of which is the glyph of the i-th leaf.
   */
  lemma WsNameWithLeaves(ws: Node, num: int)
    requires WorkspaceLeaves(ws) != []
    ensures var prefix := IntToString(num) + ": ";
      var leaves := WorkspaceLeaves(ws);
      |WsName(ws, num)| == |prefix| + |leaves|
      && WsName(ws, num)[..|prefix|] == prefix
      && forall i :: 0 <= i < |leaves| ==> [WsName(ws, num)[|prefix| + i]] == WinIcon(leaves[i])
  {
    var leaves := WorkspaceLeaves(ws);
    var glyphs := Icons(leaves);
    forall i | 0 <= i < |glyphs|
      ensures glyphs[i] == WinIcon(leaves[i]) && |glyphs[i]| == 1
    {
      IconsAt(leaves, i);
    }
    ConcatOfSingletons(glyphs);
    forall i | 0 <= i < |glyphs|
      ensures [Concat(glyphs)[i]] == glyphs[i]
    {
      assert |glyphs[i]| == 1;
    }
  }

  /** A floating container without children contributes no glyph. */
  lemma {:induction false} EmptyFloatingAddsNothing(ws: Node, f: Node)
    requires f.nodes == []
    ensures WorkspaceLeaves(ws.(floatingNodes := ws.floatingNodes + [f])) == WorkspaceLeaves(ws)
  {
    var fs := ws.floatingNodes + [f];
    LeavesUpToSameChildren(ws.(floatingNodes := fs), ws, |ws.nodes|);
    assert fs[..|fs| - 1] == ws.floatingNodes;
    assert Leaves(f) == [];
    assert FloatingLeaves(fs) == FloatingLeaves(ws.floatingNodes) + Leaves(f);
  }

  /** The tiled leaves of a node whose tiled children are all leaves are exactly those children. */
  lemma {:induction false} FlatNodeLeaves(node: Node, k: nat)
    requires k <= |node.nodes|
    requires forall i :: 0 <= i < |node.nodes| ==> node.nodes[i].nodes == []
    ensures |LeavesUpTo(node, k)| == k
    ensures forall i :: 0 <= i < k ==> LeavesUpTo(node, k)[i] == node.nodes[i].windowProperties
  {
    if k > 0 {
      FlatNodeLeaves(node, k - 1);
    }
  }

  // ---------------------------------------------------------------------
  // renameAllWs
  // ---------------------------------------------------------------------

  /** The ID -> number map of renameAllWs; named workspaces (num == -1) are skipped. */
  function NumMap(ws: seq<Workspace>): map<int, int>
  {
    if ws == [] then map[]
    else
      var m := NumMap(ws[..|ws| - 1]);
      var w := ws[|ws| - 1];
      if w.num == -1 then m else m[w.id := w.num]
  }

  /**
    The map holds exactly the IDs of numbered workspaces, each with the
    number of a numbered workspace of that ID, never -1.
   */
  lemma {:induction false} NumMapKeys(ws: seq<Workspace>)
    ensures forall id :: id in NumMap(ws) <==> exists w :: w in ws && w.id == id && w.num != -1
    ensures forall id :: id in NumMap(ws) ==> NumMap(ws)[id] != -1
    ensures forall id :: id in NumMap(ws) ==> exists w :: w in ws && w.id == id && w.num == NumMap(ws)[id]
  {
    if ws != [] {
      NumMapKeys(ws[..|ws| - 1]);
      assert ws == ws[..|ws| - 1] + [ws[|ws| - 1]];
    }
  }

  /** The first loop of renameAllWs. */
  method BuildWsNums(ws: seq<Workspace>) returns (wsNums: map<int, int>)
    ensures wsNums == NumMap(ws)
  {
    wsNums := map[];
    for i := 0 to |ws|
      invariant wsNums == NumMap(ws[..i])
    {
      assert ws[..i + 1][..i] == ws[..i];
      var w := ws[i];
      if w.num == -1 {
        continue;
      }
      wsNums := wsNums[w.id := w.num];
    }
    assert ws[..|ws|] == ws;
  }

  /** Every node of `nodes` has a number in `nums`. */
  predicate AllNumbered(nodes: seq<Node>, nums: map<int, int>) {
    forall i :: 0 <= i < |nodes| ==> nodes[i].id in nums
  }

  /**
    The managed workspace nodes the rename walk reaches among the first `k`
    tiled children of `node`, depth first; the walk stops at each of them.
   */
  function ManagedUpTo(node: Node, nums: map<int, int>, k: nat): (found: seq<Node>)
    requires k <= |node.nodes|
    ensures AllNumbered(found, nums)
    decreases node, 0, k
  {
    if k == 0 then []
    else
      var child := node.nodes[k - 1];
      ManagedUpTo(node, nums, k - 1) + Managed(child, nums)
  }

  /** The nodes the helper closure of renameAllWs renames, in order, starting from `root`. */
  function Managed(root: Node, nums: map<int, int>): (found: seq<Node>)
    ensures AllNumbered(found, nums)
    decreases root, 1
  {
    if root.id in nums then [root] else ManagedUpTo(root, nums, |root.nodes|)
  }

  /**
    `n` is reached by the rename walk started at `root`: it is `root`
    itself, or `root` is not managed and `n` is reached from one of its
    tiled children. The walk never goes below a managed node.
   */
  predicate Reached(root: Node, n: Node, nums: map<int, int>)
    decreases root
  {
    n == root
    || (root.id !in nums && exists i :: 0 <= i < |root.nodes| && Reached(root.nodes[i], n, nums))
  }

  lemma {:induction false} ManagedUpToReached(node: Node, nums: map<int, int>, k: nat)
    requires k <= |node.nodes|
    ensures forall n :: n in ManagedUpTo(node, nums, k) <==>
      n.id in nums && exists i :: 0 <= i < k && Reached(node.nodes[i], n, nums)
    decreases node, 0, k
  {
    if k > 0 {
      ManagedUpToReached(node, nums, k - 1);
      ManagedReached(node.nodes[k - 1], nums);
      forall n: Node | n.id in nums && (exists i :: 0 <= i < k && Reached(node.nodes[i], n, nums))
        ensures n in ManagedUpTo(node, nums, k)
      {
        var i :| 0 <= i < k && Reached(node.nodes[i], n, nums);
        if i == k - 1 {
          assert n in Managed(node.nodes[k - 1], nums);
        } else {
          assert n in ManagedUpTo(node, nums, k - 1);
        }
      }
    }
  }

  /**
    The walk renames exactly the managed nodes it reaches: a node is found
    if and only if it has a number and is reached through tiled children
    without passing a managed node.
   */
  lemma {:induction false} ManagedReached(root: Node, nums: map<int, int>)
    ensures forall n :: n in Managed(root, nums) <==> Reached(root, n, nums) && n.id in nums
    decreases root, 1
  {
    if root.id !in nums {
      ManagedUpToReached(root, nums, |root.nodes|);
      forall n: Node | Reached(root, n, nums) && n.id in nums
        ensures exists i :: 0 <= i < |root.nodes| && Reached(root.nodes[i], n, nums)
      {
        assert n != root;
      }
    } else {
      forall n: Node | Reached(root, n, nums)
        ensures n == root
      {
      }
    }
  }

  /** One `rename workspace` statement, from the old label to the new one. */
  datatype Rename = Rename(oldName: string, newName: string)

  /** The text of a statement as renameAllWs and resetWsName format it. */
  function StatementText(r: Rename): string
  {
    "rename workspace \"" + r.oldName + "\" to \"" + r.newName + "\";"
  }

  /** Two quote-free texts each followed by a quote and then some rest: equal wholes have equal parts. */
  lemma SplitAtQuote(x: string, u: string, y: string, v: string)
    requires Lacks(x, '"') && Lacks(y, '"')
    requires |u| > 0 && u[0] == '"' && |v| > 0 && v[0] == '"'
    requires x + u == y + v
    ensures x == y && u == v
  {
    var t := x + u;
    assert t[|x|] == '"' && t[|y|] == '"';
    assert forall j :: 0 <= j < |x| ==> t[j] == x[j];
    assert forall j :: 0 <= j < |y| ==> t[j] == y[j];
    assert x == t[..|x|] && y == t[..|y|];
  }

  /** Equal texts with the same prefix and the same suffix have equal middles. */
  lemma SameFrame(p: string, x: string, s: string, y: string)
    requires p + x + s == p + y + s
    ensures x == y
  {
    var t := p + x + s;
    assert x == t[|p|..|t| - |s|];
    assert y == t[|p|..|t| - |s|];
  }

  /**
    A statement names its rename unambiguously when the old name has no
    quote: two renames with the same text are the same rename.
   */
  lemma StatementTextInjective(r1: Rename, r2: Rename)
    requires Lacks(r1.oldName, '"') && Lacks(r2.oldName, '"')
    requires StatementText(r1) == StatementText(r2)
    ensures r1 == r2
  {
    var open, close := "rename workspace \"", "\";";
    var m1 := "\" to \"" + r1.newName;
    var m2 := "\" to \"" + r2.newName;
    assert StatementText(r1) == open + (r1.oldName + m1) + close;
    assert StatementText(r2) == open + (r2.oldName + m2) + close;
    SameFrame(open, r1.oldName + m1, close, r2.oldName + m2);
    SplitAtQuote(r1.oldName, m1, r2.oldName, m2);
    SameFrame("\" to \"", r1.newName, [], r2.newName);
  }

  /** A batch of statements written one after the other, as strings.Builder collects them. */
  function Render(batch: seq<Rename>): string
  {
    if batch == [] then "" else Render(batch[..|batch| - 1]) + StatementText(batch[|batch| - 1])
  }

  lemma {:induction false} RenderAppend(a: seq<Rename>, b: seq<Rename>)
    ensures Render(a + b) == Render(a) + Render(b)
    decreases |b|
  {
    if b != [] {
      var b' := b[..|b| - 1];
      assert (a + b)[..|a + b| - 1] == a + b';
      assert (a + b)[|a + b| - 1] == b[|b| - 1];
      RenderAppend(a, b');
      calc {
        Render(a + b);
        Render(a + b') + StatementText(b[|b| - 1]);
        Render(a) + Render(b') + StatementText(b[|b| - 1]);
        Render(a) + Render(b);
      }
    } else {
      assert a + b == a;
    }
  }

  /** The renames of managed nodes: the current name to the synthesised label. */
  function Renames(nodes: seq<Node>, nums: map<int, int>): (batch: seq<Rename>)
    requires AllNumbered(nodes, nums)
    ensures |batch| == |nodes|
  {
    if nodes == [] then []
    else
      var last := nodes[|nodes| - 1];
      Renames(nodes[..|nodes| - 1], nums) + [Rename(last.name, WsName(last, nums[last.id]))]
  }

  lemma {:induction false} RenamesAt(nodes: seq<Node>, nums: map<int, int>, i: nat)
    requires AllNumbered(nodes, nums)
    requires i < |nodes|
    ensures Renames(nodes, nums)[i] == Rename(nodes[i].name, WsName(nodes[i], nums[nodes[i].id]))
  {
    if i < |nodes| - 1 {
      RenamesAt(nodes[..|nodes| - 1], nums, i);
    }
  }

  lemma {:induction false} RenamesAppend(a: seq<Node>, b: seq<Node>, nums: map<int, int>)
    requires AllNumbered(a, nums)
    requires AllNumbered(b, nums)
    ensures Renames(a + b, nums) == Renames(a, nums) + Renames(b, nums)
    decreases |b|
  {
    if b == [] {
      assert a + b == a;
    } else {
      var b' := b[..|b| - 1];
      assert (a + b)[..|a + b| - 1] == a + b';
      RenamesAppend(a, b', nums);
    }
  }

  /** The batch renameAllWs sends for workspace list `ws` and tree `root`. */
  function RenamePlan(ws: seq<Workspace>, root: Node): seq<Rename>
  {
    Renames(Managed(root, NumMap(ws)), NumMap(ws))
  }

  /** A strings.Builder: text only ever grows at its end. */
  class StringBuilder {
    var text: string

    constructor ()
      ensures text == ""
    {
      text := "";
    }

    method WriteString(s: string)
      modifies this
      ensures text == old(text) + s
    {
      text := text + s;
    }
  }

  /** The statement for one managed workspace node, numbered by `nums`. */
  function RenameOf(node: Node, nums: map<int, int>): Rename
    requires node.id in nums
  {
    Rename(node.name, WsName(node, nums[node.id]))
  }

  /**
    The text the helper closure of renameAllWs writes for the first `k`
    tiled children of `node`, defined by following the closure's own steps.
   */
  function WalkTextUpTo(node: Node, nums: map<int, int>, k: nat): string
    requires k <= |node.nodes|
    decreases node, 0, k
  {
    if k == 0 then ""
    else
      var child := node.nodes[k - 1];
      WalkTextUpTo(node, nums, k - 1) + WalkText(child, nums)
  }

  /** The text the helper closure writes when started at `node`. */
  function WalkText(node: Node, nums: map<int, int>): string
    decreases node, 1
  {
    if node.id in nums then StatementText(RenameOf(node, nums))
    else WalkTextUpTo(node, nums, |node.nodes|)
  }

  /** The closure's text for k children: that for k - 1, then the text started at the k-th child. */
  lemma WalkTextUpToStep(node: Node, nums: map<int, int>, k: nat)
    requires 0 < k <= |node.nodes|
    ensures WalkTextUpTo(node, nums, k) == WalkTextUpTo(node, nums, k - 1) + WalkText(node.nodes[k - 1], nums)
  {
  }

  /** The rendered renames for k children: those for k - 1, then those found from the k-th child. */
  lemma RenderManagedUpToStep(node: Node, nums: map<int, int>, k: nat)
    requires 0 < k <= |node.nodes|
    ensures Render(Renames(ManagedUpTo(node, nums, k), nums))
      == Render(Renames(ManagedUpTo(node, nums, k - 1), nums)) + Render(Renames(Managed(node.nodes[k - 1], nums), nums))
  {
    var before := ManagedUpTo(node, nums, k - 1);
    var below := Managed(node.nodes[k - 1], nums);
    assert ManagedUpTo(node, nums, k) == before + below;
    RenamesAppend(before, below, nums);
    RenderAppend(Renames(before, nums), Renames(below, nums));
  }

  /** The closure's text is the rendering of the renames of the managed nodes, in walk order. */
  lemma {:induction false} WalkTextUpToIsPlan(node: Node, nums: map<int, int>, k: nat)
    requires k <= |node.nodes|
    ensures WalkTextUpTo(node, nums, k) == Render(Renames(ManagedUpTo(node, nums, k), nums))
    decreases node, 0, k
  {
    if k > 0 {
      WalkTextUpToIsPlan(node, nums, k - 1);
      WalkTextIsPlan(node.nodes[k - 1], nums);
      WalkTextUpToStep(node, nums, k);
      RenderManagedUpToStep(node, nums, k);
    }
  }

  lemma SingleRender(node: Node, nums: map<int, int>)
    requires node.id in nums
    ensures Render(Renames([node], nums)) == StatementText(RenameOf(node, nums))
  {
    assert [node][..0] == [];
    assert Renames([node], nums) == [RenameOf(node, nums)];
    assert [RenameOf(node, nums)][..0] == [];
  }

  lemma {:induction false} WalkTextIsPlan(node: Node, nums: map<int, int>)
    ensures WalkText(node, nums) == Render(Renames(Managed(node, nums), nums))
    decreases node, 1
  {
    if node.id in nums {
      SingleRender(node, nums);
    } else {
      WalkTextUpToIsPlan(node, nums, |node.nodes|);
    }
  }

  /** The recursive helper closure of renameAllWs. */
  method Walk(node: Node, wsNums: map<int, int>, cmdBuilder: StringBuilder)
    modifies cmdBuilder
    ensures cmdBuilder.text == old(cmdBuilder.text) + WalkText(node, wsNums)
    decreases node
  {
    if node.id in wsNums {
      var wsNum := wsNums[node.id];
      var oldName := node.name;
      var newName := GetWsName(node, wsNum);
      cmdBuilder.WriteString(StatementText(Rename(oldName, newName)));
      return;
    }
    ghost var start := cmdBuilder.text;
    for i := 0 to |node.nodes|
      invariant cmdBuilder.text == start + WalkTextUpTo(node, wsNums, i)
    {
      AppendAssoc(start, WalkTextUpTo(node, wsNums, i), WalkText(node.nodes[i], wsNums));
      Walk(node.nodes[i], wsNums, cmdBuilder);
    }
  }

  /** renameAllWs, given the workspace list and the tree: the command it runs. */
  method RenameAllWs(ws: seq<Workspace>, root: Node) returns (cmd: string)
    ensures cmd == Render(RenamePlan(ws, root))
  {
    var wsNums := BuildWsNums(ws);
    var cmdBuilder := new StringBuilder();
    Walk(root, wsNums, cmdBuilder);
    cmd := cmdBuilder.text;
    WalkTextIsPlan(root, wsNums);
  }

  /**
    Named workspaces are never renamed: when workspace IDs are unique, no
    statement of the batch comes from the node of a workspace numbered -1.
   */
  lemma NamedWorkspaceNeverRenamed(ws: seq<Workspace>, root: Node, named: Workspace)
    requires named in ws && named.num == -1
    requires forall w :: w in ws && w.id == named.id ==> w == named
    ensures forall n :: n in Managed(root, NumMap(ws)) ==> n.id != named.id
  {
    NumMapKeys(ws);
  }

  /** Each statement of the batch renames a managed node to its label, with its number from the list. */
  lemma RenamePlanStatements(ws: seq<Workspace>, root: Node)
    ensures var nodes := Managed(root, NumMap(ws));
      |RenamePlan(ws, root)| == |nodes|
      && forall i :: 0 <= i < |nodes| ==>
        (exists w :: w in ws && w.id == nodes[i].id && w.num != -1)
        && RenamePlan(ws, root)[i] == Rename(nodes[i].name, WsName(nodes[i], NumMap(ws)[nodes[i].id]))
  {
    NumMapKeys(ws);
    var nodes := Managed(root, NumMap(ws));
    forall i | 0 <= i < |nodes|
      ensures RenamePlan(ws, root)[i] == Rename(nodes[i].name, WsName(nodes[i], NumMap(ws)[nodes[i].id]))
    {
      RenamesAt(nodes, NumMap(ws), i);
    }
  }

  /**
    Two numbered workspaces and the named workspace "scratch" on one output:
    the batch holds exactly two statements, renaming the numbered ones.
   */
  lemma TwoNumberedOneNamed(wp: WindowProperties)
    ensures var one := Node(1, "1", [], [], wp);
      var two := Node(2, "2", [], [], wp);
      var scratch := Node(3, "scratch", [], [], wp);
      var root := Node(0, "root", [Node(10, "output", [one, two, scratch], [], wp)], [], wp);
      var ws := [Workspace(1, 1, "1"), Workspace(2, 2, "2"), Workspace(3, -1, "scratch")];
      |RenamePlan(ws, root)| == 2
      && RenamePlan(ws, root)[0].oldName == "1" && RenamePlan(ws, root)[1].oldName == "2"
  {
    var one := Node(1, "1", [], [], wp);
    var two := Node(2, "2", [], [], wp);
    var scratch := Node(3, "scratch", [], [], wp);
    var output := Node(10, "output", [one, two, scratch], [], wp);
    var root := Node(0, "root", [output], [], wp);
    var ws := [Workspace(1, 1, "1"), Workspace(2, 2, "2"), Workspace(3, -1, "scratch")];
    var nums := NumMap(ws);
    assert NumMap([ws[0]]) == map[1 := 1] by { assert [ws[0]][..0] == []; }
    assert NumMap([ws[0], ws[1]]) == map[1 := 1, 2 := 2] by { assert [ws[0], ws[1]][..1] == [ws[0]]; }
    assert ws[..2] == [ws[0], ws[1]];
    assert nums == map[1 := 1, 2 := 2];
    assert ManagedUpTo(output, nums, 1) == [one];
    assert ManagedUpTo(output, nums, 2) == [one, two];
    assert Managed(scratch, nums) == [];
    assert ManagedUpTo(output, nums, 3) == [one, two];
    assert Managed(root, nums) == [one, two] by {
      assert ManagedUpTo(root, nums, 1) == [] + Managed(output, nums);
    }
    RenamePlanStatements(ws, root);
  }

  /** The tree with every floating list emptied. */
  function WithoutFloating(node: Node): (r: Node)
    ensures r.id == node.id && |r.nodes| == |node.nodes| && r.floatingNodes == []
    decreases node
  {
    Node(node.id, node.name,
      seq(|node.nodes|, i requires 0 <= i < |node.nodes| => WithoutFloating(node.nodes[i])),
      [], node.windowProperties)
  }

  function Ids(nodes: seq<Node>): (ids: seq<int>)
    ensures |ids| == |nodes|
  {
    seq(|nodes|, i requires 0 <= i < |nodes| => nodes[i].id)
  }

  lemma IdsAppend(a: seq<Node>, b: seq<Node>)
    ensures Ids(a + b) == Ids(a) + Ids(b)
  {
  }

  lemma WithoutFloatingChild(node: Node, i: nat)
    requires i < |node.nodes|
    ensures WithoutFloating(node).nodes[i] == WithoutFloating(node.nodes[i])
  {
  }

  /** The walk over the first `k` children: the walk over `k - 1`, then what the `k`-th child contributes. */
  lemma ManagedUpToStep(node: Node, nums: map<int, int>, k: nat)
    requires 0 < k <= |node.nodes|
    ensures Ids(ManagedUpTo(node, nums, k)) == Ids(ManagedUpTo(node, nums, k - 1)) + Ids(Managed(node.nodes[k - 1], nums))
  {
    IdsAppend(ManagedUpTo(node, nums, k - 1), Managed(node.nodes[k - 1], nums));
  }

  /** Two nodes whose children contribute the same workspaces, child by child, have the same walk. */
  lemma {:induction false} ManagedUpToAgree(a: Node, b: Node, nums: map<int, int>, k: nat)
    requires k <= |a.nodes| == |b.nodes|
    requires forall i :: 0 <= i < k ==> Ids(Managed(a.nodes[i], nums)) == Ids(Managed(b.nodes[i], nums))
    ensures Ids(ManagedUpTo(a, nums, k)) == Ids(ManagedUpTo(b, nums, k))
  {
    if k > 0 {
      ManagedUpToAgree(a, b, nums, k - 1);
      ManagedUpToStep(a, nums, k);
      ManagedUpToStep(b, nums, k);
    }
  }

  lemma {:induction false} ManagedUpToIgnoresFloating(node: Node, nums: map<int, int>, k: nat)
    requires k <= |node.nodes|
    ensures Ids(ManagedUpTo(WithoutFloating(node), nums, k)) == Ids(ManagedUpTo(node, nums, k))
    decreases node, k
  {
    var stripped := WithoutFloating(node);
    forall i | 0 <= i < k
      ensures Ids(Managed(stripped.nodes[i], nums)) == Ids(Managed(node.nodes[i], nums))
    {
      var child := node.nodes[i];
      WithoutFloatingChild(node, i);
      if child.id !in nums {
        ManagedUpToIgnoresFloating(child, nums, |child.nodes|);
      }
    }
    ManagedUpToAgree(stripped, node, nums, k);
  }

  /**
    The walk descends only through tiled children: removing every floating
    container leaves the renamed workspaces, and their order, unchanged.
   */
  lemma ManagedIgnoresFloating(root: Node, nums: map<int, int>)
    ensures Ids(Managed(WithoutFloating(root), nums)) == Ids(Managed(root, nums))
  {
    if root.id !in nums {
      ManagedUpToIgnoresFloating(root, nums, |root.nodes|);
    }
  }

  // ---------------------------------------------------------------------
  // resetWsName
  // ---------------------------------------------------------------------

  /** The batch resetWsName sends: every workspace, in list order, to its bare number. */
  function ResetPlan(ws: seq<Workspace>): (batch: seq<Rename>)
    ensures |batch| == |ws|
    ensures forall i :: 0 <= i < |ws| ==> batch[i].oldName == ws[i].name
  {
    seq(|ws|, i requires 0 <= i < |ws| => Rename(ws[i].name, IntToString(ws[i].num)))
  }

  method ResetWsName(ws: seq<Workspace>) returns (cmd: string)
    ensures cmd == Render(ResetPlan(ws))
  {
    var cmdBuilder := new StringBuilder();
    for i := 0 to |ws|
      invariant cmdBuilder.text == Render(ResetPlan(ws[..i]))
    {
      var w := ws[i];
      cmdBuilder.WriteString(StatementText(Rename(w.name, IntToString(w.num))));
      assert ResetPlan(ws[..i + 1])[..i] == ResetPlan(ws[..i]);
    }
    assert ws[..|ws|] == ws;
    cmd := cmdBuilder.text;
  }

  /**
    Each reset target reads back as the workspace's number; a named
    workspace (num == -1) is renamed to "-1", since nothing is filtered.
   */
  lemma ResetTargets(ws: seq<Workspace>)
    ensures forall i :: 0 <= i < |ws| ==> ResetPlan(ws)[i].newName == IntToString(ws[i].num)
    ensures forall i :: 0 <= i < |ws| && ws[i].num >= 0 ==>
      AllDigits(ResetPlan(ws)[i].newName) && ParseDecimal(ResetPlan(ws)[i].newName) == ws[i].num
      && (ResetPlan(ws)[i].newName[0] == '0' <==> ws[i].num == 0)
    ensures forall i :: 0 <= i < |ws| && ws[i].num == -1 ==> ResetPlan(ws)[i].newName == "-1"
  {
  }

  // ---------------------------------------------------------------------
  // The event filter of main
  // ---------------------------------------------------------------------

  /** An event from the subscription; `OtherEvent` is any other event type. */
  datatype Event = WindowEvent(change: string) | WorkspaceEvent(change: string) | OtherEvent

  const WindowChanges: set<string> := {"new", "close", "move", "floating"}

  /** Whether the event loop re-runs renameAllWs for this event. */
  function Triggers(event: Event): (rename: bool)
    ensures event.WindowEvent? ==> (rename <==> event.change in WindowChanges)
    ensures event.WorkspaceEvent? ==> (rename <==> event.change == "move")
    ensures event.OtherEvent? ==> rename
  {
    match event
    case WindowEvent(change) =>
      change == "new" || change == "close" || change == "move" || change == "floating"
    case WorkspaceEvent(change) => change == "move"
    case OtherEvent => true
  }

  /** The indices below `k` of the events that trigger a rename, in order. */
  function TriggeredUpTo(events: seq<Event>, k: nat): (idx: seq<nat>)
    requires k <= |events|
    ensures forall j :: 0 <= j < |idx| ==> idx[j] < k && Triggers(events[idx[j]])
    ensures forall j, j' :: 0 <= j < j' < |idx| ==> idx[j] < idx[j']
    ensures forall i :: 0 <= i < k && Triggers(events[i]) ==> i in idx
  {
    if k == 0 then []
    else TriggeredUpTo(events, k - 1) + (if Triggers(events[k - 1]) then [k - 1] else [])
  }

  /** The first event that triggers a rename that then fails, or |events| if none. */
  function FirstFatal(events: seq<Event>, renameOk: seq<bool>, from: nat): (stop: nat)
    requires |renameOk| == |events| && from <= |events|
    ensures from <= stop <= |events|
    ensures stop < |events| ==> Triggers(events[stop]) && !renameOk[stop]
    ensures forall i :: from <= i < stop ==> !Triggers(events[i]) || renameOk[i]
    decreases |events| - from
  {
    if from == |events| then from
    else if Triggers(events[from]) && !renameOk[from] then from
    else FirstFatal(events, renameOk, from + 1)
  }

  /**
    The subscription loop of main over a finite stream of events.
    `renameOk[i]` is whether renameAllWs would succeed after event i; a
    failing rename is fatal (log.Fatal) and ends the loop.
   */
  method EventLoop(events: seq<Event>, renameOk: seq<bool>) returns (renamedAfter: seq<nat>, fatal: bool)
    requires |renameOk| == |events|
    ensures var stop := FirstFatal(events, renameOk, 0);
      (fatal <==> stop < |events|)
      && renamedAfter == TriggeredUpTo(events, if fatal then stop + 1 else |events|)
  {
    renamedAfter := [];
    fatal := false;
    var i := 0;
    while i < |events|
      invariant 0 <= i <= |events|
      invariant FirstFatal(events, renameOk, 0) == FirstFatal(events, renameOk, i)
      invariant renamedAfter == TriggeredUpTo(events, i)
    {
      if !Triggers(events[i]) {
        i := i + 1;
        continue;
      }
      renamedAfter := renamedAfter + [i];
      if !renameOk[i] {
        fatal := true;
        return;
      }
      i := i + 1;
    }
  }
}
