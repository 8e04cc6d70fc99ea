/** The text decisions of the layout engine: which layout a device type gets, whether the
    alert border is drawn, which rows the generic layout shows, the infrastructure status,
    the word wrap of the error screen, and the window and labels of the device list. */
module Renderer {
  import opened Wrappers
  import opened Text
  import opened Json
  import opened Protocol
  import Widgets

  datatype Layout = Medical | Vehicle | Infra | HomeLayout | Industrial | Generic

  /** The type prefix that selects each specialised layout. */
  function LayoutPrefix(l: Layout): string
  {
    match l
    case Medical => "medical."
    case Vehicle => "vehicle."
    case Infra => "infra."
    case HomeLayout => "home."
    case Industrial => "industrial."
    case Generic => ""
  }

  /** `link.type or ""`: the type text, empty when unset. */
  function TypeText(link: DeviceLink): string
  {
    match link.deviceType
    case JStr(s) => s
    case _ => ""
  }

  /** `link.name or link.id`: the title shown for a link. */
  function Title(link: DeviceLink): string
  {
    match link.name
    case JStr(s) => if s != "" then s else link.id
    case _ => link.id
  }

  /** The layout dispatch of `render_frame`, tried in order. */
  function ChooseLayout(deviceType: string): Layout
  {
    if "medical." <= deviceType then Medical
    else if "vehicle." <= deviceType then Vehicle
    else if "infra." <= deviceType then Infra
    else if "home." <= deviceType then HomeLayout
    else if "industrial." <= deviceType then Industrial
    else Generic
  }

  /** No prefix is a prefix of another, so the order of the tests does not matter: a type
      gets a specialised layout exactly when it starts with that layout's prefix, and the
      generic layout exactly when it starts with none. */
  lemma ChooseLayoutByPrefix(deviceType: string, l: Layout)
    requires l != Generic
    ensures ChooseLayout(deviceType) == l <==> LayoutPrefix(l) <= deviceType
    ensures ChooseLayout(deviceType) == Generic <==>
      forall m :: m != Generic ==> !(LayoutPrefix(m) <= deviceType)
  {
    var c := ChooseLayout(deviceType);
    if c != Generic {
      assert LayoutPrefix(c) <= deviceType;
      PrefixesExclusive(deviceType, c);
    }
  }

  lemma PrefixesExclusive(deviceType: string, l: Layout)
    requires l != Generic && LayoutPrefix(l) <= deviceType
    ensures forall m :: m != Generic && m != l ==> !(LayoutPrefix(m) <= deviceType)
  {
    forall m | m != Generic && m != l
      ensures !(LayoutPrefix(m) <= deviceType)
    {
      PrefixesDiffer(l, m);
    }
  }

  /** Two different prefixes differ in their first character, or (infra. and industrial.) in
      their third. */
  lemma PrefixesDiffer(l: Layout, m: Layout)
    requires l != Generic && m != Generic && l != m
    ensures var a := LayoutPrefix(l); var b := LayoutPrefix(m);
      |a| > 2 && |b| > 2 && (a[0] != b[0] || a[2] != b[2])
  {
  }

  /** A link with no type, or an empty one, gets the generic layout. */
  lemma UntypedIsGeneric(link: DeviceLink)
    requires !link.deviceType.JStr? || link.deviceType.s == ""
    ensures ChooseLayout(TypeText(link)) == Generic
  {
  }

  /** The red border: drawn exactly when the sample's "alerts" is truthy (absent counts as
      an empty list). */
  function AlertBorder(data: Object): (b: bool)
    ensures !HasKey(data, "alerts") ==> !b
    ensures HasKey(data, "alerts") ==> (b <==> Truthy(Get(data, "alerts").value))
  {
    Truthy(GetOr(data, "alerts", JArr([])))
  }

  // ---------------------------------------------------------------------------
  // The generic layout

  const GenericRowHeight: int := 32
  const GenericLastRowY: int := 200

  /** The rows of the generic layout from height `y` on: "ts" is skipped; a row is drawn while
      `y` is at most 200; the first key that does not fit draws "..." and ends the list.
      The result is the members drawn and whether "..." was drawn. */
  function GenericRows(data: Object, y: int): (r: (seq<Member>, bool))
    decreases |data|
  {
    if |data| == 0 then ([], false)
    else if data[0].key == "ts" then GenericRows(data[1..], y)
    else if y > GenericLastRowY then ([], true)
    else
      var rest := GenericRows(data[1..], y + GenericRowHeight);
      ([data[0]] + rest.0, rest.1)
  }

  /** The members other than "ts", in order. */
  function NonTs(data: Object): (r: Object)
    ensures |r| <= |data|
  {
    if |data| == 0 then []
    else if data[0].key == "ts" then NonTs(data[1..])
    else [data[0]] + NonTs(data[1..])
  }

  /** How many rows fit from height `y` on. */
  function RowsFrom(y: int): nat
    decreases GenericLastRowY - y
  {
    if y > GenericLastRowY then 0 else 1 + RowsFrom(y + GenericRowHeight)
  }

  /** The cut-off: the rows are the first keys other than "ts", as many as fit, and "..."
      appears exactly when a further such key exists. */
  lemma {:induction false} GenericRowsCutoff(data: Object, y: int)
    ensures var (rows, more) := GenericRows(data, y);
      var keys := NonTs(data);
      var n := RowsFrom(y);
      && rows == (if |keys| <= n then keys else keys[..n])
      && (more <==> |keys| > n)
    decreases |data|
  {
    if |data| > 0 {
      if data[0].key == "ts" {
        GenericRowsCutoff(data[1..], y);
      } else if y <= GenericLastRowY {
        GenericRowsCutoff(data[1..], y + GenericRowHeight);
        var keys := NonTs(data);
        assert keys == [data[0]] + NonTs(data[1..]);
        var n := RowsFrom(y + GenericRowHeight);
        assert RowsFrom(y) == n + 1;
        if |keys| > n + 1 {
          assert keys[..n + 1] == [data[0]] + NonTs(data[1..])[..n];
        }
      }
    }
  }

  /** Below the header the generic layout has room for six rows. */
  lemma GenericShowsSix(link: DeviceLink, data: Object)
    ensures var (rows, more) := GenericRows(data, Widgets.DrawHeader(Title(link), TypeText(link), 0).nextY);
      && |rows| == (if |NonTs(data)| < 6 then |NonTs(data)| else 6)
      && (more <==> |NonTs(data)| > 6)
  {
    var y := Widgets.DrawHeader(Title(link), TypeText(link), 0).nextY;
    assert y == 34;
    assert RowsFrom(226) == 0;
    assert RowsFrom(194) == 1;
    assert RowsFrom(130) == 3;
    assert RowsFrom(34) == 6;
    GenericRowsCutoff(data, y);
  }

  /** The generic layout's header falls back to "custom" when the link has no type. */
  function GenericHeader(link: DeviceLink): (h: Widgets.Header)
    ensures TypeText(link) == "" ==> h.badge == "custom"
    ensures h.nextY == 34
  {
    var t := TypeText(link);
    Widgets.DrawHeader(Title(link), if t != "" then t else "custom", 0)
  }

  // ---------------------------------------------------------------------------
  // The infrastructure layout

  /** The status line of the infrastructure layout and the alerts shown with it. */
  function InfraStatus(activeAlerts: int): (r: (string, seq<string>))
    ensures r.0 == "OK" <==> activeAlerts == 0
    ensures r.1 == [] <==> activeAlerts == 0
    ensures activeAlerts != 0 ==> r.1 == [r.0]
  {
    if activeAlerts == 0 then ("OK", [])
    else (IntToString(activeAlerts) + " ALERTS", [IntToString(activeAlerts) + " ALERTS"])
  }

  /** The alert count can be read back from the status line. */
  lemma InfraStatusCount(n: nat)
    requires n > 0
    ensures var s := InfraStatus(n).0;
      |s| > 7 && s[|s| - 7..] == " ALERTS" && ParseNat(s[..|s| - 7]) == Some(n)
  {
    var digits := NatToString(n);
    var s := digits + " ALERTS";
    assert s[..|s| - 7] == digits;
    assert s[|s| - 7..] == " ALERTS";
    ParseNatToString(n);
  }

  /** The infrastructure status bar: "OK" in yellow (it is not one of the green words), or a
      red alert line repeating the status. */
  lemma InfraStatusBar(n: int)
    ensures var (status, alerts) := InfraStatus(n);
      Widgets.StatusBar(status, alerts).1 == (if n == 0 then Widgets.Yellow else Widgets.Red)
  {
  }

  // ---------------------------------------------------------------------------
  // The error screen

  const WrapWidth: nat := 28

  /** The loop of `render_error_screen`: each word is tried on the current line; when the
      stripped result is over 28 characters the current line is drawn and the word starts the
      next one. The last line is drawn when non-empty. The result is the lines drawn. */
  function WrapLoop(line: string, words: seq<string>): seq<string>
    decreases |words|
  {
    if |words| == 0 then (if line != "" then [line] else [])
    else
      var test := Strip(line + " " + words[0]);
      if |test| > WrapWidth then [line] + WrapLoop(words[0], words[1..])
      else WrapLoop(test, words[1..])
  }

  function WrapMessage(message: string): seq<string>
  {
    WrapLoop("", Words(message))
  }

  /** The same loop over word groups: the reference the lines are compared against. */
  function Groups(cur: seq<string>, words: seq<string>): seq<seq<string>>
    decreases |words|
  {
    if |words| == 0 then (if cur != [] then [cur] else [])
    else
      var test := cur + [words[0]];
      if |Unwords(test)| > WrapWidth then [cur] + Groups([words[0]], words[1..])
      else Groups(test, words[1..])
  }

  function Unlines(gs: seq<seq<string>>): (r: seq<string>)
    ensures |r| == |gs|
    ensures forall i :: 0 <= i < |gs| ==> r[i] == Unwords(gs[i])
  {
    if |gs| == 0 then [] else [Unwords(gs[0])] + Unlines(gs[1..])
  }

  function Flatten(gs: seq<seq<string>>): seq<string>
  {
    if |gs| == 0 then [] else gs[0] + Flatten(gs[1..])
  }

  /** The words read back from the drawn lines, as `split()` would. */
  function LineWords(lines: seq<string>): seq<string>
  {
    if |lines| == 0 then [] else Words(lines[0]) + LineWords(lines[1..])
  }

  /** The string loop draws exactly the joined groups. */
  lemma {:induction false} WrapLoopGroups(cur: seq<string>, words: seq<string>)
    requires AllWords(cur) && AllWords(words)
    ensures WrapLoop(Unwords(cur), words) == Unlines(Groups(cur, words))
    decreases |words|
  {
    if |words| == 0 {
      if cur == [] {
        assert Unwords(cur) == "";
      } else {
        UnwordsEnds(cur);
        assert Unlines([cur]) == [Unwords(cur)];
      }
    } else {
      var w := words[0];
      StripJoin(cur, w);
      var test := cur + [w];
      assert AllWords(words[1..]) by {
        forall k | 0 <= k < |words[1..]| ensures IsWord(words[1..][k]) { assert words[1..][k] == words[k + 1]; }
      }
      if |Unwords(test)| > WrapWidth {
        assert Unwords([w]) == w;
        WrapLoopGroups([w], words[1..]);
        assert Unlines([cur] + Groups([w], words[1..])) == [Unwords(cur)] + Unlines(Groups([w], words[1..]));
      } else {
        WrapLoopGroups(test, words[1..]);
      }
    }
  }

  lemma {:induction false} FlattenGroups(cur: seq<string>, words: seq<string>)
    ensures Flatten(Groups(cur, words)) == cur + words
    decreases |words|
  {
    if |words| == 0 {
      if cur != [] {
        assert Flatten([cur]) == cur + Flatten([]);
      }
      assert cur + words == cur;
    } else {
      var w := words[0];
      if |Unwords(cur + [w])| > WrapWidth {
        FlattenGroups([w], words[1..]);
        assert Flatten([cur] + Groups([w], words[1..])) == cur + Flatten(Groups([w], words[1..]));
      } else {
        FlattenGroups(cur + [w], words[1..]);
      }
      assert cur + [w] + words[1..] == cur + words;
    }
  }

  /** Every group of two or more words fits in 28 characters. */
  lemma {:induction false} GroupsFit(cur: seq<string>, words: seq<string>)
    requires |cur| <= 1 || |Unwords(cur)| <= WrapWidth
    ensures forall i :: 0 <= i < |Groups(cur, words)| ==>
      |Groups(cur, words)[i]| <= 1 || |Unwords(Groups(cur, words)[i])| <= WrapWidth
    decreases |words|
  {
    if |words| > 0 {
      var w := words[0];
      if |Unwords(cur + [w])| > WrapWidth {
        GroupsFit([w], words[1..]);
        var rest := Groups([w], words[1..]);
        assert Groups(cur, words) == [cur] + rest;
        assert forall i :: 1 <= i < |[cur] + rest| ==> ([cur] + rest)[i] == rest[i - 1];
      } else {
        GroupsFit(cur + [w], words[1..]);
      }
    }
  }

  /** Only the first group can be empty, and only when the first word alone is too long. */
  lemma {:induction false} GroupsNonEmpty(cur: seq<string>, words: seq<string>)
    ensures forall i :: 0 <= i < |Groups(cur, words)| && Groups(cur, words)[i] == [] ==>
      i == 0 && cur == [] && |words| > 0 && |Unwords([words[0]])| > WrapWidth
    decreases |words|
  {
    if |words| > 0 {
      var w := words[0];
      if |Unwords(cur + [w])| > WrapWidth {
        GroupsNonEmpty([w], words[1..]);
        var rest := Groups([w], words[1..]);
        assert Groups(cur, words) == [cur] + rest;
        assert forall i :: 1 <= i < |[cur] + rest| ==> ([cur] + rest)[i] == rest[i - 1];
        if cur == [] {
          assert cur + [w] == [w];
        }
      } else {
        GroupsNonEmpty(cur + [w], words[1..]);
      }
    }
  }

  lemma {:induction false} LineWordsUnlines(gs: seq<seq<string>>)
    requires forall i :: 0 <= i < |gs| ==> AllWords(gs[i])
    ensures LineWords(Unlines(gs)) == Flatten(gs)
  {
    if |gs| > 0 {
      WordsUnwords(gs[0]);
      LineWordsUnlines(gs[1..]);
      assert Unlines(gs)[1..] == Unlines(gs[1..]);
    }
  }

  lemma {:induction false} GroupsAreWords(cur: seq<string>, words: seq<string>)
    requires AllWords(cur) && AllWords(words)
    ensures forall i :: 0 <= i < |Groups(cur, words)| ==> AllWords(Groups(cur, words)[i])
    decreases |words|
  {
    if |words| > 0 {
      var w := words[0];
      assert AllWords(words[1..]) by {
        forall k | 0 <= k < |words[1..]| ensures IsWord(words[1..][k]) { assert words[1..][k] == words[k + 1]; }
      }
      if |Unwords(cur + [w])| > WrapWidth {
        GroupsAreWords([w], words[1..]);
        var rest := Groups([w], words[1..]);
        assert forall i :: 1 <= i < |[cur] + rest| ==> ([cur] + rest)[i] == rest[i - 1];
      } else {
        GroupsAreWords(cur + [w], words[1..]);
      }
    }
  }

  /** The word wrap of the error screen: the lines give back the message's words in order;
      a line longer than 28 characters is a single word of the message; and an empty line is
      drawn only first, when the first word alone is too long. */
  lemma WrapMessageProperties(message: string)
    ensures var lines := WrapMessage(message);
      var words := Words(message);
      && LineWords(lines) == words
      && (forall i :: 0 <= i < |lines| && |lines[i]| > WrapWidth ==> lines[i] in words)
      && (forall i :: 0 <= i < |lines| && lines[i] == "" ==> i == 0 && |words[0]| > WrapWidth)
  {
    var words := Words(message);
    var gs := Groups([], words);
    assert Unwords([]) == "";
    WrapLoopGroups([], words);
    var lines := WrapMessage(message);
    assert lines == Unlines(gs);
    GroupsAreWords([], words);
    FlattenGroups([], words);
    LineWordsUnlines(gs);
    assert [] + words == words;
    GroupsFit([], words);
    GroupsNonEmpty([], words);
    forall i | 0 <= i < |lines| && |lines[i]| > WrapWidth
      ensures lines[i] in words
    {
      assert |gs[i]| == 1;
      assert lines[i] == Unwords(gs[i]) == gs[i][0];
      FlattenMember(gs, i);
    }
    forall i | 0 <= i < |lines| && lines[i] == ""
      ensures i == 0 && |words[0]| > WrapWidth
    {
      if gs[i] != [] {
        UnwordsEnds(gs[i]);
      }
      assert Unwords([words[0]]) == words[0];
    }
  }

  /** A word of any group is a word of the flattened sequence. */
  lemma {:induction false} FlattenMember(gs: seq<seq<string>>, i: nat)
    requires i < |gs| && |gs[i]| > 0
    ensures gs[i][0] in Flatten(gs)
  {
    if i == 0 {
      assert Flatten(gs) == gs[0] + Flatten(gs[1..]);
      assert Flatten(gs)[0] == gs[0][0];
    } else {
      FlattenMember(gs[1..], i - 1);
      assert gs[1..][i - 1] == gs[i];
      assert Flatten(gs) == gs[0] + Flatten(gs[1..]);
    }
  }

  // ---------------------------------------------------------------------------
  // The device list

  const VisibleRows: nat := 5
  const RowsAboveSelection: nat := 2

  /** The rows shown: from two above the selection (not before the first), at most five. */
  function Window(n: nat, selected: int): (r: (nat, nat))
    ensures r.0 == (if selected - RowsAboveSelection > 0 then selected - RowsAboveSelection else 0)
    ensures r.1 <= n && r.1 <= r.0 + VisibleRows
    ensures r.1 == n || r.1 == r.0 + VisibleRows
  {
    var start := if selected - RowsAboveSelection > 0 then selected - RowsAboveSelection else 0;
    (start, if n < start + VisibleRows then n else start + VisibleRows)
  }

  /** A valid selection is always inside the window, with at most two rows above it; the
      window is full whenever enough devices follow the selection. */
  lemma WindowHoldsSelection(n: nat, selected: int)
    requires 0 <= selected < n
    ensures var (start, end) := Window(n, selected);
      && start <= selected < end
      && selected - start <= RowsAboveSelection
      && (n >= start + VisibleRows ==> end - start == VisibleRows)
  {
  }

  /** One row of the list: the title cut to 20 characters, the last segment of the type
      ("unknown" when unset), the PIN badge, the active marker and the highlight. */
  datatype Row = Row(title: string, kind: string, pinBadge: bool, active: bool, selected: bool)

  datatype DeviceList =
    | NoDevices
    | Listing(count: nat, rows: seq<Row>, upIndicator: bool, downIndicator: bool)

  const RowTitleLength: nat := 20

  function DeviceRow(link: DeviceLink, activeId: string, isSelected: bool): Row
  {
    var t := TypeText(link);
    Row(Prefix(Title(link), RowTitleLength), LastSegment(if t != "" then t else "unknown", '.'),
        link.auth != "" && link.auth != "open", link.id == activeId, isSelected)
  }

  /** A row shows the name or id cut to 20 characters, the last dotted segment of the type
      (or "unknown"), the PIN badge exactly for a method other than "" and "open", and the
      active mark exactly for the active device. */
  lemma DeviceRowFacts(link: DeviceLink, activeId: string, isSelected: bool)
    ensures var r := DeviceRow(link, activeId, isSelected);
      && |r.title| == (if |Title(link)| < RowTitleLength then |Title(link)| else RowTitleLength)
      && r.title <= Title(link)
      && '.' !in r.kind
      && (TypeText(link) == "" ==> r.kind == "unknown")
      && (TypeText(link) != "" && '.' !in TypeText(link) ==> r.kind == TypeText(link))
      && ('.' in TypeText(link) ==> TypeText(link) == SplitLast(TypeText(link), '.').0 + ['.'] + r.kind)
      && (r.pinBadge <==> link.auth != "" && link.auth != "open")
      && (r.active <==> link.id == activeId)
      && r.selected == isSelected
  {
  }

  /** `render_device_list`. */
  function RenderDeviceList(devices: seq<DeviceLink>, selected: int, activeId: string): (v: DeviceList)
    ensures v.NoDevices? <==> devices == []
  {
    if devices == [] then NoDevices
    else
      var (start, end) := Window(|devices|, selected);
      var rows := if start < end
        then seq(end - start, k requires 0 <= k < end - start => DeviceRow(devices[start + k], activeId, start + k == selected))
        else [];
      Listing(|devices|, rows, start > 0, end < |devices|)
  }

  /** The listing holds one row per device of the window, in order, and the scroll marks
      show exactly when devices lie above or below the window. */
  lemma DeviceListRows(devices: seq<DeviceLink>, selected: int, activeId: string)
    requires 0 <= selected < |devices|
    ensures var v := RenderDeviceList(devices, selected, activeId);
      var (start, end) := Window(|devices|, selected);
      && v.Listing? && v.count == |devices| && |v.rows| == end - start <= VisibleRows
      && (forall k :: 0 <= k < |v.rows| ==> v.rows[k] == DeviceRow(devices[start + k], activeId, start + k == selected))
      && (v.upIndicator <==> start > 0)
      && (v.downIndicator <==> end < |devices|)
  {
    WindowHoldsSelection(|devices|, selected);
    var (start, end) := Window(|devices|, selected);
    var rows := seq(end - start, k requires 0 <= k < end - start => DeviceRow(devices[start + k], activeId, start + k == selected));
    assert RenderDeviceList(devices, selected, activeId) == Listing(|devices|, rows, start > 0, end < |devices|);
  }

  /** Exactly the row of the selected device is highlighted. */
  lemma DeviceListSelection(devices: seq<DeviceLink>, selected: int, activeId: string)
    requires 0 <= selected < |devices|
    ensures var v := RenderDeviceList(devices, selected, activeId);
      var start := Window(|devices|, selected).0;
      && v.Listing? && 0 <= selected - start < |v.rows|
      && (forall k :: 0 <= k < |v.rows| ==> (v.rows[k].selected <==> start + k == selected))
  {
    DeviceListRows(devices, selected, activeId);
    WindowHoldsSelection(|devices|, selected);
    var v := RenderDeviceList(devices, selected, activeId);
    var start := Window(|devices|, selected).0;
    forall k | 0 <= k < |v.rows|
      ensures v.rows[k].selected <==> start + k == selected
    {
      DeviceRowFacts(devices[start + k], activeId, start + k == selected);
    }
  }

  /** The list shows the window's devices in order, highlights exactly the selected one, and
      shows the scroll indicators exactly when devices lie above or below the window. */
  lemma DeviceListShowsWindow(devices: seq<DeviceLink>, selected: int, activeId: string)
    requires 0 <= selected < |devices|
    ensures var v := RenderDeviceList(devices, selected, activeId);
      var (start, end) := Window(|devices|, selected);
      && v.Listing? && v.count == |devices| && |v.rows| == end - start <= VisibleRows
      && (forall k :: 0 <= k < |v.rows| ==> v.rows[k] == DeviceRow(devices[start + k], activeId, start + k == selected))
      && v.rows[selected - start].selected
      && (forall k :: 0 <= k < |v.rows| && v.rows[k].selected ==> start + k == selected)
      && (v.upIndicator <==> start > 0)
      && (v.downIndicator <==> end < |devices|)
  {
    DeviceListRows(devices, selected, activeId);
    DeviceListSelection(devices, selected, activeId);
  }

  /** The connecting screen shows the device id cut to 28 characters. */
  function ConnectingText(deviceId: string): (s: string)
    ensures |s| == (if |deviceId| < 28 then |deviceId| else 28) && s <= deviceId
    ensures |deviceId| <= 28 ==> s == deviceId
  {
    Prefix(deviceId, 28)
  }
}
