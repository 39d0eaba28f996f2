/** Reading the controls off an accessibility snapshot: a stack of open lines against what
    nesting means. Lines are taken parsed; text cuts and unquoting are not part of this model. */
module SnapshotReader {
  import opened Wrappers
  import opened BrowserActions

  datatype Line = Line(depth: nat, role: string, name: string, attrs: set<string>, value: Option<string>)

  const CONTROL_ROLES := {"button", "link", "checkbox", "radio", "switch", "textbox", "searchbox", "spinbutton",
                          "combobox", "option", "tab", "menuitem", "menuitemcheckbox", "menuitemradio", "treeitem"}
  const REGION_ROLES := {"row", "listitem", "dialog", "alertdialog", "group", "form", "region", "article", "tabpanel",
                         "navigation"}
  const WORD_ROLES := {"text", "cell", "paragraph"}
  const TICK_ROLES := {"checkbox", "radio", "switch"}
  const REGION_CHARS := 120

  // ---- what nesting means --------------------------------------------------------------

  /** Line `i` sits inside line `j`: everything from `j` down to `i` is deeper than `j`. */
  predicate Encloses(lines: seq<Line>, j: int, i: nat)
    requires i < |lines|
  {
    0 <= j < i && forall k :: j < k <= i ==> lines[k].depth > lines[j].depth
  }

  /** The innermost line before `below` that `i` sits inside. */
  function Innermost(lines: seq<Line>, i: nat, below: nat): (r: Option<nat>)
    requires i < |lines| && below <= i
    ensures r.Some? ==>
      && r.value < below && Encloses(lines, r.value, i)
      && forall j :: r.value < j < below ==> !Encloses(lines, j, i)
    ensures r == None ==> forall j :: 0 <= j < below ==> !Encloses(lines, j, i)
  {
    if below == 0 then None
    else if Encloses(lines, below - 1, i) then Some(below - 1)
    else Innermost(lines, i, below - 1)
  }

  function Words(l: Line): string {
    if l.role !in WORD_ROLES then "" else if l.name != "" then l.name else if l.value.Some? then l.value.value else ""
  }

  /** The words directly inside line `a`, among the first `n` lines. */
  function TextsOf(lines: seq<Line>, a: nat, n: nat): seq<string>
    requires n <= |lines|
  {
    if n == 0 then []
    else
      TextsOf(lines, a, n - 1) +
      if Words(lines[n - 1]) != "" && Innermost(lines, n - 1, n - 1) == Some(a) then [Words(lines[n - 1])] else []
  }

  function HeadingAt(lines: seq<Line>, n: nat): string
    requires n <= |lines|
  {
    if n == 0 then ""
    else if lines[n - 1].role == "heading" && lines[n - 1].name != "" then lines[n - 1].name
    else HeadingAt(lines, n - 1)
  }

  /** A combobox that is not open may be a native select. */
  predicate SelectLike(l: Line) {
    l.role == "combobox" && l.name != "" && "expanded" !in l.attrs
  }

  function LastSelect(lines: seq<Line>, n: nat): (r: Option<nat>)
    requires n <= |lines|
    ensures r.Some? ==>
      r.value < n && SelectLike(lines[r.value]) && forall j :: r.value < j < n ==> !SelectLike(lines[j])
  {
    if n == 0 then None else if SelectLike(lines[n - 1]) then Some(n - 1) else LastSelect(lines, n - 1)
  }

  /** The select an option line belongs to: the last one before it, while the option sits inside it. */
  function OwnerOf(lines: seq<Line>, i: nat): Option<nat>
    requires i < |lines|
  {
    var s := LastSelect(lines, i);
    if lines[i].role == "option" && s.Some? && Encloses(lines, s.value, i) then s else None
  }

  predicate IsControl(lines: seq<Line>, i: nat)
    requires i < |lines|
  {
    lines[i].role in CONTROL_ROLES && lines[i].name != "" && OwnerOf(lines, i) == None
  }

  function OptionsOf(lines: seq<Line>, s: nat, n: nat): seq<string>
    requires n <= |lines|
  {
    if n == 0 then []
    else OptionsOf(lines, s, n - 1) + if OwnerOf(lines, n - 1) == Some(s) then [lines[n - 1].name] else []
  }

  /** What a control shows: its own value, or the last selected option's. */
  function ValueOf(lines: seq<Line>, s: nat, n: nat): Option<string>
    requires s < |lines| && n <= |lines|
  {
    if n == 0 then lines[s].value
    else if OwnerOf(lines, n - 1) == Some(s) && "selected" in lines[n - 1].attrs then Some(lines[n - 1].name)
    else ValueOf(lines, s, n - 1)
  }

  predicate InRegionRole(l: Line) {
    l.role in REGION_ROLES
  }

  predicate NamesRegion(lines: seq<Line>, a: nat, n: nat)
    requires a < |lines| && n <= |lines|
  {
    InRegionRole(lines[a]) && (lines[a].name != "" || TextsOf(lines, a, n) != [])
  }

  /** The innermost named region around `i`, or one known by the words in it so far. */
  function HolderOf(lines: seq<Line>, i: nat, below: nat): (r: Option<nat>)
    requires i < |lines| && below <= i
    ensures r.Some? ==> r.value < below && Encloses(lines, r.value, i) && NamesRegion(lines, r.value, i)
    ensures r.Some? ==> forall j :: r.value < j < below && Encloses(lines, j, i) ==> !NamesRegion(lines, j, i)
    ensures r == None ==> forall j :: 0 <= j < below && Encloses(lines, j, i) ==> !NamesRegion(lines, j, i)
  {
    if below == 0 then None
    else if Encloses(lines, below - 1, i) && NamesRegion(lines, below - 1, i) then Some(below - 1)
    else HolderOf(lines, i, below - 1)
  }

  function Join(words: seq<string>): string {
    if words == [] then "" else if |words| == 1 then words[0] else words[0] + " " + Join(words[1..])
  }

  function Cut(s: string): string {
    if |s| <= REGION_CHARS then s else s[..REGION_CHARS]
  }

  function RegionOf(lines: seq<Line>, i: nat): string
    requires i < |lines|
  {
    var holder := HolderOf(lines, i, i);
    Cut(if holder.None? then HeadingAt(lines, i)
        else if lines[holder.value].name != "" then lines[holder.value].name
        else Join(TextsOf(lines, holder.value, i)))
  }

  /** The control of line `i`, as the first `n` lines tell it, not yet numbered. */
  function Draft(lines: seq<Line>, i: nat, n: nat): Control
    requires i < |lines| && n <= |lines|
  {
    var l := lines[i];
    Control(l.role, l.name, 0, 1,
      if l.role in TICK_ROLES then Some("checked" in l.attrs) else if "checked" in l.attrs then Some(true) else None,
      "selected" in l.attrs, "expanded" in l.attrs, "disabled" in l.attrs,
      ValueOf(lines, i, n), if SelectLike(l) then Some(OptionsOf(lines, i, n)) else None, RegionOf(lines, i))
  }

  function ControlLines(lines: seq<Line>, n: nat): (r: seq<nat>)
    requires n <= |lines|
    ensures forall k: nat :: k in r <==> k < n && IsControl(lines, k)
    ensures forall a, b :: 0 <= a < b < |r| ==> r[a] < r[b]
  {
    if n == 0 then []
    else
      var before := ControlLines(lines, n - 1);
      assert forall a :: 0 <= a < |before| ==> before[a] in before;
      if IsControl(lines, n - 1) then before + [n - 1] else before
  }

  // ---- the stack -----------------------------------------------------------------------

  /** The lines `i` sits inside, outermost first. */
  ghost predicate Around(lines: seq<Line>, stack: seq<nat>, i: nat)
    requires i < |lines|
  {
    && (forall j :: j in stack <==> Encloses(lines, j, i))
    && forall a, b :: 0 <= a < b < |stack| ==> stack[a] < stack[b]
  }

  /** The lines still open once the first `n` are read, the last of them on top. */
  ghost predicate Open(lines: seq<Line>, stack: seq<nat>, n: nat)
    requires n <= |lines|
  {
    if n == 0 then stack == []
    else stack != [] && stack[|stack| - 1] == n - 1 && Around(lines, stack[..|stack| - 1], n - 1)
  }

  lemma OpenEncloses(lines: seq<Line>, stack: seq<nat>, n: nat)
    requires 0 < n < |lines| && Open(lines, stack, n)
    ensures forall j :: j in stack ==> j < n
    ensures forall j :: Encloses(lines, j, n) <==> j in stack && lines[j].depth < lines[n].depth
    ensures forall a, b :: 0 <= a < b < |stack| ==>
      stack[a] < stack[b] < n && lines[stack[a]].depth < lines[stack[b]].depth
  {
    var front := stack[..|stack| - 1];
    assert stack == front + [n - 1];
    assert forall j :: Encloses(lines, j, n) ==> j == n - 1 || Encloses(lines, j, n - 1);
    forall j | j in stack && lines[j].depth < lines[n].depth
      ensures Encloses(lines, j, n)
    {
      if j in front {
        assert Encloses(lines, j, n - 1);
      }
    }
    forall a, b | 0 <= a < b < |stack|
      ensures stack[a] < stack[b] < n && lines[stack[a]].depth < lines[stack[b]].depth
    {
      assert stack[a] in front && Encloses(lines, stack[a], n - 1);
      if b < |front| {
        assert stack[b] in front && Encloses(lines, stack[b], n - 1);
      }
    }
  }

  lemma OpenBelow(lines: seq<Line>, stack: seq<nat>, n: nat)
    requires n < |lines| && Open(lines, stack, n)
    ensures forall m :: 0 <= m < |stack| ==> stack[m] < n
  {
    if n > 0 {
      var front := stack[..|stack| - 1];
      assert forall m :: 0 <= m < |front| ==> front[m] in front && stack[m] == front[m];
    }
  }

  /** Popping what is not shallower leaves exactly the lines around the next one. */
  method Pop(lines: seq<Line>, before: seq<nat>, n: nat) returns (stack: seq<nat>)
    requires n < |lines| && Open(lines, before, n)
    ensures Around(lines, stack, n)
  {
    stack := before;
    OpenBelow(lines, before, n);
    while stack != [] && lines[stack[|stack| - 1]].depth >= lines[n].depth
      invariant |stack| <= |before| && stack == before[..|stack|]
      invariant forall m :: 0 <= m < |before| ==> before[m] < n
      invariant forall m :: |stack| <= m < |before| ==> lines[before[m]].depth >= lines[n].depth
      decreases |stack|
    {
      stack := stack[..|stack| - 1];
    }
    PoppedAround(lines, before, |stack|, n);
  }

  lemma {:induction false} PoppedAround(lines: seq<Line>, before: seq<nat>, left: nat, n: nat)
    requires n < |lines| && Open(lines, before, n) && left <= |before|
    requires forall m :: left <= m < |before| ==> before[m] < n && lines[before[m]].depth >= lines[n].depth
    requires left > 0 ==> before[left - 1] < n && lines[before[left - 1]].depth < lines[n].depth
    ensures Around(lines, before[..left], n)
  {
    if n > 0 {
      OpenEncloses(lines, before, n);
    }
    var stack := before[..left];
    forall m | 0 <= m < left
      ensures stack[m] == before[m] && Encloses(lines, stack[m], n)
    {
      assert before[m] in before && lines[before[m]].depth <= lines[before[left - 1]].depth;
    }
    forall j | Encloses(lines, j, n)
      ensures j in stack
    {
      var m :| 0 <= m < |before| && before[m] == j;
      assert m < left && stack[m] == j;
    }
  }

  lemma TopIsInnermost(lines: seq<Line>, stack: seq<nat>, n: nat)
    requires n < |lines| && Around(lines, stack, n)
    ensures Innermost(lines, n, n) == if stack == [] then None else Some(stack[|stack| - 1])
  {
    var r := Innermost(lines, n, n);
    if r.Some? {
      assert r.value in stack;
    }
    if stack != [] {
      assert stack[|stack| - 1] in stack;
    }
  }

  ghost predicate RegionLines(lines: seq<Line>, at: set<nat>, n: nat)
    requires n <= |lines|
  {
    forall a: nat {:trigger a in at} :: a in at <==> a < n && InRegionRole(lines[a])
  }

  /** The texts kept for each region line read so far. */
  ghost predicate TextsKept(lines: seq<Line>, texts: map<nat, seq<string>>, n: nat)
    requires n <= |lines|
  {
    RegionLines(lines, texts.Keys, n) && TextsRight(lines, texts, n)
  }

  lemma NoTextsBefore(lines: seq<Line>, a: nat, n: nat)
    requires n <= a + 1 && n <= |lines|
    ensures TextsOf(lines, a, n) == []
  {
    if n > 0 {
      NoTextsBefore(lines, a, n - 1);
    }
  }

  method AddWords(lines: seq<Line>, n: nat, stack: seq<nat>, before: map<nat, seq<string>>)
    returns (texts: map<nat, seq<string>>)
    requires n < |lines| && Around(lines, stack, n) && TextsKept(lines, before, n)
    ensures texts.Keys == before.Keys && TextsRight(lines, texts, n + 1)
  {
    texts := before;
    TopIsInnermost(lines, stack, n);
    var words := Words(lines[n]);
    if words != "" && stack != [] {
      var top := stack[|stack| - 1];
      if top in texts {
        texts := texts[top := texts[top] + [words]];
      }
    }
  }

  lemma NoneNames(lines: seq<Line>, n: nat, stack: seq<nat>, m: nat)
    requires n < |lines| && Around(lines, stack, n) && m <= |stack|
    requires forall b :: m <= b < |stack| ==> stack[b] < n && !NamesRegion(lines, stack[b], n)
    ensures forall j :: (m > 0 ==> stack[m - 1] < j) && Encloses(lines, j, n) ==> !NamesRegion(lines, j, n)
  {
    forall j | (m > 0 ==> stack[m - 1] < j) && Encloses(lines, j, n)
      ensures !NamesRegion(lines, j, n)
    {
      assert j in stack;
      var b :| 0 <= b < |stack| && stack[b] == j;
      assert m <= b;
    }
  }

  lemma HolderFound(lines: seq<Line>, n: nat, stack: seq<nat>, m: nat)
    requires n < |lines| && Around(lines, stack, n) && 0 < m <= |stack|
    requires forall b :: m <= b < |stack| ==> stack[b] < n && !NamesRegion(lines, stack[b], n)
    requires stack[m - 1] < n && NamesRegion(lines, stack[m - 1], n)
    ensures HolderOf(lines, n, n) == Some(stack[m - 1])
  {
    NoneNames(lines, n, stack, m);
    assert stack[m - 1] in stack;
  }

  lemma HolderMissing(lines: seq<Line>, n: nat, stack: seq<nat>)
    requires n < |lines| && Around(lines, stack, n)
    requires forall b :: 0 <= b < |stack| ==> stack[b] < n && !NamesRegion(lines, stack[b], n)
    ensures HolderOf(lines, n, n) == None
  {
    NoneNames(lines, n, stack, 0);
  }

  lemma NamesRegionKept(lines: seq<Line>, n: nat, texts: map<nat, seq<string>>, a: nat)
    requires n < |lines| && a < n && TextsKept(lines, texts, n)
    ensures InRegionRole(lines[a]) ==> a in texts && texts[a] == TextsOf(lines, a, n)
    ensures NamesRegion(lines, a, n) <==> InRegionRole(lines[a]) && (lines[a].name != "" || texts[a] != [])
  {
  }

  /** The first from the top that names its region. */
  method FindHolder(lines: seq<Line>, n: nat, stack: seq<nat>,
                    texts: map<nat, seq<string>>) returns (holder: Option<nat>)
    requires n < |lines| && Around(lines, stack, n)
    requires TextsKept(lines, texts, n)
    ensures holder == HolderOf(lines, n, n)
  {
    var m := |stack|;
    while m > 0
      invariant 0 <= m <= |stack|
      invariant forall b :: m <= b < |stack| ==> stack[b] < n && !NamesRegion(lines, stack[b], n)
    {
      var a := stack[m - 1];
      assert a in stack && a < n;
      NamesRegionKept(lines, n, texts, a);
      if InRegionRole(lines[a]) && (lines[a].name != "" || texts[a] != []) {
        HolderFound(lines, n, stack, m);
        return Some(a);
      }
      m := m - 1;
    }
    HolderMissing(lines, n, stack);
    holder := None;
  }

  // ---- one line after another ----------------------------------------------------------

  /** The select still open after `n` lines, by its place among the controls. */
  ghost predicate SelectKept(lines: seq<Line>, select: Option<nat>, n: nat)
    requires n <= |lines|
  {
    var s := LastSelect(lines, n);
    if s.None? || !(s.value == n - 1 || (n > 0 && Encloses(lines, s.value, n - 1))) then select == None
    else select.Some? && select.value < |ControlLines(lines, n)| && ControlLines(lines, n)[select.value] == s.value
  }

  ghost predicate Drafted(lines: seq<Line>, controls: seq<Control>, n: nat)
    requires n <= |lines|
  {
    var at := ControlLines(lines, n);
    && |controls| == |at|
    && forall m :: 0 <= m < |at| ==> at[m] in at && controls[m] == Draft(lines, at[m], n)
  }

  lemma OwnOptionsLater(lines: seq<Line>, s: nat, n: nat)
    requires s < |lines| && n <= |lines| && n <= s + 1
    ensures OptionsOf(lines, s, n) == [] && ValueOf(lines, s, n) == lines[s].value
  {
    if n > 0 {
      OwnOptionsLater(lines, s, n - 1);
    }
  }

  /** The open select, once what line `n` leaves is closed. */
  method CloseSelect(lines: seq<Line>, before: Option<nat>, controls: seq<Control>, selectDepth: nat,
                     n: nat) returns (select: Option<nat>)
    requires n < |lines| && SelectKept(lines, before, n)
    requires before.Some? ==> selectDepth == lines[LastSelect(lines, n).value].depth
    ensures select.Some? <==> LastSelect(lines, n).Some? && Encloses(lines, LastSelect(lines, n).value, n)
    ensures select.Some? ==>
      && select == before && select.value < |ControlLines(lines, n)|
      && ControlLines(lines, n)[select.value] == LastSelect(lines, n).value
  {
    select := before;
    if select.Some? && lines[n].depth <= selectDepth {
      select := None;
    }
  }

  /** An option of the open select is that select's, and changes no other control. */
  method AddOption(lines: seq<Line>, before: seq<Control>, select: nat, n: nat) returns (controls: seq<Control>)
    requires n < |lines| && Drafted(lines, before, n)
    requires select < |before| && lines[n].role == "option"
    requires LastSelect(lines, n) == Some(ControlLines(lines, n)[select])
      && Encloses(lines, ControlLines(lines, n)[select], n)
    ensures Drafted(lines, controls, n + 1) && ControlLines(lines, n + 1) == ControlLines(lines, n)
  {
    ghost var at := ControlLines(lines, n);
    var c := before[select];
    assert at[select] in at && SelectLike(lines[at[select]]);
    var value := if "selected" in lines[n].attrs then Some(lines[n].name) else c.value;
    controls := before[select := c.(options := Some(c.options.value + [lines[n].name]), value := value)];
    forall m | 0 <= m < |at|
      ensures controls[m] == Draft(lines, at[m], n + 1)
    {
      assert at[m] in at;
      if m != select {
        assert at[m] != at[select];
        assert OptionsOf(lines, at[m], n) + [] == OptionsOf(lines, at[m], n);
      }
    }
  }

  lemma OthersStand(lines: seq<Line>, n: nat, i: nat)
    requires n < |lines| && i < |lines| && OwnerOf(lines, n) == None
    ensures Draft(lines, i, n + 1) == Draft(lines, i, n)
  {
    assert OptionsOf(lines, i, n) + [] == OptionsOf(lines, i, n);
  }

  /** The control a line is, in the region it sits in. */
  method NewControl(lines: seq<Line>, n: nat, region: string) returns (c: Control)
    requires n < |lines| && lines[n].name != "" && Cut(region) == RegionOf(lines, n)
    ensures c == Draft(lines, n, n + 1)
  {
    var l := lines[n];
    c := Control(l.role, l.name, 0, 1,
      if "checked" in l.attrs then Some(true) else None,
      "selected" in l.attrs, "expanded" in l.attrs, "disabled" in l.attrs, l.value, None, Cut(region));
    if l.role in TICK_ROLES {
      c := c.(checked := Some("checked" in l.attrs));
    }
    if l.role == "combobox" && "expanded" !in l.attrs {
      c := c.(options := Some([]));
    }
    OwnOptionsLater(lines, n, n + 1);
  }

  /** A line that is no select's option: perhaps a control, told as the line and its region tell it. */
  method AddLine(lines: seq<Line>, before: seq<Control>, stack: seq<nat>, texts: map<nat, seq<string>>,
                 heading: string, n: nat)
    returns (controls: seq<Control>)
    requires n < |lines| && Drafted(lines, before, n) && OwnerOf(lines, n) == None
    requires Around(lines, stack, n)
    requires lines[n].role in CONTROL_ROLES ==> TextsKept(lines, texts, n) && heading == HeadingAt(lines, n)
    ensures Drafted(lines, controls, n + 1)
    ensures |controls| == |before| + if IsControl(lines, n) then 1 else 0
  {
    ghost var at := ControlLines(lines, n);
    forall m | 0 <= m < |at|
      ensures before[m] == Draft(lines, at[m], n + 1)
    {
      assert at[m] in at;
      OthersStand(lines, n, at[m]);
    }
    controls := before;
    var l := lines[n];
    if l.role in CONTROL_ROLES && l.name != "" {
      var holder := FindHolder(lines, n, stack, texts);
      var region := if holder.None? then heading
        else if lines[holder.value].name != "" then lines[holder.value].name else Join(texts[holder.value]);
      var c := NewControl(lines, n, region);
      controls := controls + [c];
    }
  }

  // ---- the controls, numbered ----------------------------------------------------------

  predicate Same(a: Control, b: Control) {
    a.role == b.role && a.name == b.name
  }

  function CountSame(controls: seq<Control>, c: Control): nat {
    if controls == [] then 0
    else CountSame(controls[..|controls| - 1], c) + if Same(controls[|controls| - 1], c) then 1 else 0
  }

  /** Which of its like the `m`th is, how many there are, and no options where there were none. */
  function Finished(drafts: seq<Control>, m: nat): Control
    requires m < |drafts|
  {
    var c := drafts[m];
    c.(nth := CountSame(drafts[..m], c), count := CountSame(drafts, c),
       options := if c.options == Some([]) then None else c.options)
  }

  lemma {:induction false} CountMore(controls: seq<Control>, more: seq<Control>, c: Control)
    ensures CountSame(controls, c) <= CountSame(controls + more, c)
  {
    if more != [] {
      var n := |more| - 1;
      assert (controls + more)[..|controls| + n] == controls + more[..n];
      CountMore(controls, more[..n], c);
    } else {
      assert controls + more == controls;
    }
  }

  /** A control is told apart by role, name and number: no two are the same, and the number is below the count. */
  lemma {:induction false} NumbersTellApart(drafts: seq<Control>, a: nat, b: nat)
    requires a < b < |drafts| && Same(drafts[a], drafts[b])
    ensures Finished(drafts, a).nth < Finished(drafts, b).nth < Finished(drafts, b).count == Finished(drafts, a).count
  {
    var c := drafts[b];
    SameCount(drafts[..a], drafts[a], c);
    SameCount(drafts, drafts[a], c);
    CountAt(drafts, a, b, c);
    assert drafts[..|drafts|] == drafts;
    CountAt(drafts, b, |drafts|, c);
  }

  /** One of its like at `a` is counted by any longer beginning. */
  lemma CountAt(drafts: seq<Control>, a: nat, b: nat, c: Control)
    requires a < b <= |drafts| && Same(drafts[a], c)
    ensures CountSame(drafts[..a], c) < CountSame(drafts[..b], c)
  {
    assert drafts[..a + 1][..a] == drafts[..a];
    assert drafts[..b] == drafts[..a + 1] + drafts[a + 1..b];
    CountMore(drafts[..a + 1], drafts[a + 1..b], c);
  }

  lemma {:induction false} SameCount(controls: seq<Control>, a: Control, b: Control)
    requires Same(a, b)
    ensures CountSame(controls, a) == CountSame(controls, b)
  {
    if controls != [] {
      SameCount(controls[..|controls| - 1], a, b);
    }
  }

  function SeenTimes(seen: map<(string, string), nat>, c: Control): nat {
    if (c.role, c.name) in seen then seen[(c.role, c.name)] else 0
  }

  /** How often each role and name was seen. */
  ghost predicate Tallied(seen: map<(string, string), nat>, controls: seq<Control>) {
    forall c: Control :: SeenTimes(seen, c) == CountSame(controls, c)
  }

  lemma TallyMore(seen: map<(string, string), nat>, controls: seq<Control>, d: Control)
    requires Tallied(seen, controls)
    ensures Tallied(seen[(d.role, d.name) := SeenTimes(seen, d) + 1], controls + [d])
  {
    var more := seen[(d.role, d.name) := SeenTimes(seen, d) + 1];
    forall c: Control
      ensures SeenTimes(more, c) == CountSame(controls + [d], c)
    {
      assert (controls + [d])[..|controls|] == controls;
      assert SeenTimes(seen, c) == CountSame(controls, c);
      if Same(d, c) {
        SameCount(controls, c, d);
      } else {
        assert (c.role, c.name) != (d.role, d.name);
      }
    }
  }

  method NumberFirst(drafts: seq<Control>) returns (nths: seq<nat>, seen: map<(string, string), nat>)
    ensures |nths| == |drafts| && forall k :: 0 <= k < |drafts| ==> nths[k] == CountSame(drafts[..k], drafts[k])
    ensures Tallied(seen, drafts)
  {
    seen, nths := map[], [];
    for m := 0 to |drafts|
      invariant |nths| == m && forall k :: 0 <= k < m ==> nths[k] == CountSame(drafts[..k], drafts[k])
      invariant Tallied(seen, drafts[..m])
    {
      var c := drafts[m];
      nths := nths + [SeenTimes(seen, c)];
      TallyMore(seen, drafts[..m], c);
      assert drafts[..m + 1] == drafts[..m] + [c];
      seen := seen[(c.role, c.name) := SeenTimes(seen, c) + 1];
    }
    assert drafts[..|drafts|] == drafts;
  }

  method Number(drafts: seq<Control>) returns (controls: seq<Control>)
    ensures |controls| == |drafts| && forall m :: 0 <= m < |drafts| ==> controls[m] == Finished(drafts, m)
  {
    var nths, seen := NumberFirst(drafts);
    controls := [];
    for m := 0 to |drafts|
      invariant |controls| == m && forall k :: 0 <= k < m ==> controls[k] == Finished(drafts, k)
    {
      var c := drafts[m];
      var options := if c.options == Some([]) then None else c.options;
      controls := controls + [c.(nth := nths[m], count := SeenTimes(seen, c), options := options)];
    }
  }

  /** The controls of a snapshot in page order: exactly its control lines, each as its nesting tells it. */
  ghost predicate ReadRight(lines: seq<Line>, controls: seq<Control>) {
    var at := ControlLines(lines, |lines|);
    && |controls| == |at|
    && forall m :: 0 <= m < |at| ==> at[m] in at && controls[m] == Finished(Drafts(lines), m)
  }

  ghost function Drafts(lines: seq<Line>): (r: seq<Control>)
    ensures |r| == |ControlLines(lines, |lines|)|
  {
    var at := ControlLines(lines, |lines|);
    seq(|at|, m requires 0 <= m < |at| => assert at[m] in at; Draft(lines, at[m], |lines|))
  }

  /** What the walk carries from line to line. */
  datatype Reader = Reader(drafts: seq<Control>, stack: seq<nat>, texts: map<nat, seq<string>>,
    heading: string, select: Option<nat>, selectDepth: nat)

  ghost predicate ReadSoFar(lines: seq<Line>, r: Reader, n: nat)
    requires n <= |lines|
  {
    && Drafted(lines, r.drafts, n) && Open(lines, r.stack, n) && TextsKept(lines, r.texts, n)
    && r.heading == HeadingAt(lines, n) && SelectKept(lines, r.select, n)
    && (r.select.Some? ==> r.selectDepth == lines[LastSelect(lines, n).value].depth)
  }

  lemma Pushed(lines: seq<Line>, stack: seq<nat>, n: nat)
    requires n < |lines| && Around(lines, stack, n)
    ensures Open(lines, stack + [n], n + 1)
  {
    assert (stack + [n])[..|stack|] == stack;
  }

  lemma OptionSays(l: Line)
    requires l.role == "option"
    ensures Words(l) == "" && !InRegionRole(l) && !SelectLike(l) && l.role != "heading"
  {
  }

  lemma SelectStays(lines: seq<Line>, select: nat, n: nat)
    requires n < |lines| && lines[n].role == "option" && select < |ControlLines(lines, n)|
    requires LastSelect(lines, n) == Some(ControlLines(lines, n)[select])
      && Encloses(lines, ControlLines(lines, n)[select], n)
    requires ControlLines(lines, n + 1) == ControlLines(lines, n)
    ensures SelectKept(lines, Some(select), n + 1) && LastSelect(lines, n + 1) == LastSelect(lines, n)
  {
  }

  /** The open select's options are no controls and open no region. */
  method ReadOption(lines: seq<Line>, r: Reader, stack: seq<nat>, select: nat, n: nat) returns (next: Reader)
    requires n < |lines| && ReadSoFar(lines, r, n) && Around(lines, stack, n) && lines[n].role == "option"
    requires r.select == Some(select) && select < |r.drafts|
    requires LastSelect(lines, n) == Some(ControlLines(lines, n)[select])
      && Encloses(lines, ControlLines(lines, n)[select], n)
    ensures ReadSoFar(lines, next, n + 1)
  {
    var texts := AddWords(lines, n, stack, r.texts);
    var drafts := AddOption(lines, r.drafts, select, n);
    OptionSays(lines[n]);
    TextsAfter(lines, texts, n);
    SelectStays(lines, select, n);
    Pushed(lines, stack, n);
    next := r.(drafts := drafts, stack := stack + [n], texts := texts);
  }

  lemma SelectAfter(lines: seq<Line>, select: Option<nat>, n: nat)
    requires n < |lines| && OwnerOf(lines, n) == None
    requires select.Some? <==> LastSelect(lines, n).Some? && Encloses(lines, LastSelect(lines, n).value, n)
    requires select.Some? ==>
      select.value < |ControlLines(lines, n)| && ControlLines(lines, n)[select.value] == LastSelect(lines, n).value
    ensures SelectKept(lines, if SelectLike(lines[n]) then Some(|ControlLines(lines, n + 1)| - 1) else select, n + 1)
  {
    if SelectLike(lines[n]) {
      assert IsControl(lines, n);
    }
  }

  lemma RegionLinesMore(lines: seq<Line>, at: set<nat>, n: nat)
    requires n < |lines| && RegionLines(lines, at, n)
    ensures InRegionRole(lines[n]) ==> RegionLines(lines, at + {n}, n + 1)
    ensures !InRegionRole(lines[n]) ==> RegionLines(lines, at, n + 1)
  {
  }

  /** Texts that are right of every line they are kept for. */
  ghost predicate TextsRight(lines: seq<Line>, texts: map<nat, seq<string>>, n: nat)
    requires n <= |lines|
  {
    forall a {:trigger texts[a]} :: a in texts ==> texts[a] == TextsOf(lines, a, n)
  }

  lemma OneTextMore(lines: seq<Line>, texts: map<nat, seq<string>>, n: nat)
    requires n < |lines| && TextsRight(lines, texts, n + 1)
    ensures TextsRight(lines, texts[n := []], n + 1)
  {
    NoTextsBefore(lines, n, n + 1);
  }

  lemma OneKeyMore(lines: seq<Line>, texts: map<nat, seq<string>>, n: nat)
    requires n < |lines| && RegionLines(lines, texts.Keys, n) && InRegionRole(lines[n])
    ensures RegionLines(lines, texts[n := []].Keys, n + 1)
  {
    RegionLinesMore(lines, texts.Keys, n);
    assert texts[n := []].Keys == texts.Keys + {n};
  }

  lemma TextsAfter(lines: seq<Line>, texts: map<nat, seq<string>>, n: nat)
    requires n < |lines| && RegionLines(lines, texts.Keys, n) && TextsRight(lines, texts, n + 1)
    ensures !InRegionRole(lines[n]) ==> TextsKept(lines, texts, n + 1)
    ensures InRegionRole(lines[n]) ==> TextsKept(lines, texts[n := []], n + 1)
  {
    if InRegionRole(lines[n]) {
      OneTextMore(lines, texts, n);
      OneKeyMore(lines, texts, n);
    } else {
      RegionLinesMore(lines, texts.Keys, n);
    }
  }

  lemma RolesApart(l: Line)
    ensures l.role in CONTROL_ROLES ==> Words(l) == "" && l.role != "heading"
  {
  }

  /** A line without words leaves the texts as they were. */
  lemma TextsSame(lines: seq<Line>, before: map<nat, seq<string>>, texts: map<nat, seq<string>>, n: nat)
    requires n < |lines| && Words(lines[n]) == ""
    requires TextsRight(lines, before, n) && texts.Keys == before.Keys && TextsRight(lines, texts, n + 1)
    ensures texts == before
  {
    forall a | a in texts
      ensures a in before && texts[a] == before[a]
    {
      assert a in before.Keys;
      NoWords(lines, a, n);
    }
  }

  lemma NoWords(lines: seq<Line>, a: nat, n: nat)
    requires n < |lines| && Words(lines[n]) == ""
    ensures TextsOf(lines, a, n + 1) == TextsOf(lines, a, n)
  {
    assert TextsOf(lines, a, n) + [] == TextsOf(lines, a, n);
  }

  /** Any other line. `select` is the select still open, if one is. */
  method ReadOther(lines: seq<Line>, r: Reader, stack: seq<nat>, select: Option<nat>, n: nat) returns (next: Reader)
    requires n < |lines| && ReadSoFar(lines, r, n) && Around(lines, stack, n) && OwnerOf(lines, n) == None
    requires select.Some? <==> LastSelect(lines, n).Some? && Encloses(lines, LastSelect(lines, n).value, n)
    requires select.Some? ==> select == r.select && select.value < |ControlLines(lines, n)|
    requires select.Some? ==> ControlLines(lines, n)[select.value] == LastSelect(lines, n).value
    ensures ReadSoFar(lines, next, n + 1)
  {
    var line := lines[n];
    var heading := if line.role == "heading" && line.name != "" then line.name else r.heading;
    var texts := AddWords(lines, n, stack, r.texts);
    RolesApart(line);
    if line.role in CONTROL_ROLES {
      TextsSame(lines, r.texts, texts, n);
    }
    var drafts := AddLine(lines, r.drafts, stack, texts, heading, n);
    SelectAfter(lines, select, n);
    TextsAfter(lines, texts, n);
    Pushed(lines, stack, n);
    next := Reader(drafts, stack + [n], texts, heading, select, r.selectDepth);
    if SelectLike(line) {
      next := next.(select := Some(|drafts| - 1), selectDepth := line.depth);
    }
    if InRegionRole(line) {
      next := next.(texts := texts[n := []]);
    }
  }

  method ReadLine(lines: seq<Line>, r: Reader, n: nat) returns (next: Reader)
    requires n < |lines| && ReadSoFar(lines, r, n)
    ensures ReadSoFar(lines, next, n + 1)
  {
    var stack := Pop(lines, r.stack, n);
    var select := CloseSelect(lines, r.select, r.drafts, r.selectDepth, n);
    if select.Some? && lines[n].role == "option" {
      next := ReadOption(lines, r, stack, select.value, n);
    } else {
      next := ReadOther(lines, r, stack, select, n);
    }
  }

  const Unread := Reader([], [], map[], "", None, 0)

  lemma NothingRead(lines: seq<Line>)
    ensures ReadSoFar(lines, Unread, 0)
  {
  }

  lemma AllDrafted(lines: seq<Line>, r: Reader)
    requires ReadSoFar(lines, r, |lines|)
    ensures r.drafts == Drafts(lines)
  {
  }

  /** Each finished draft stands for its line. */
  lemma AllRead(lines: seq<Line>, controls: seq<Control>)
    requires |controls| == |Drafts(lines)|
    requires forall m :: 0 <= m < |controls| ==> controls[m] == Finished(Drafts(lines), m)
    ensures ReadRight(lines, controls)
  {
    var at := ControlLines(lines, |lines|);
    assert forall m :: 0 <= m < |at| ==> at[m] in at;
  }

  method BrowserTaskControls(lines: seq<Line>) returns (controls: seq<Control>)
    ensures ReadRight(lines, controls)
  {
    var r := Unread;
    NothingRead(lines);
    for n := 0 to |lines|
      invariant ReadSoFar(lines, r, n)
    {
      r := ReadLine(lines, r, n);
    }
    AllDrafted(lines, r);
    controls := Number(r.drafts);
    AllRead(lines, controls);
  }
}
