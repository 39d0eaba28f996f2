/** What a control read off a snapshot says, told line by line from the snapshot alone. */
module SnapshotLaws {
  import opened Wrappers
  import opened BrowserActions
  import opened SnapshotReader

  /** Those places, each once, in page order. */
  ghost predicate InOrder(at: seq<nat>, of: set<nat>) {
    && (forall k: nat :: k in at <==> k in of)
    && forall a, b :: 0 <= a < b < |at| ==> at[a] < at[b]
  }

  lemma InOrderMore(at: seq<nat>, of: set<nat>, n: nat)
    requires InOrder(at, of) && forall k :: k in of ==> k < n
    ensures InOrder(at + [n], of + {n})
  {
    assert forall a :: 0 <= a < |at| ==> at[a] in at;
  }

  lemma OnlyNoneIsEmpty(at: seq<nat>, of: set<nat>)
    requires InOrder(at, of)
    ensures at == [] <==> of == {}
  {
    if at != [] {
      assert at[0] in at;
    }
  }

  // ---- words ---------------------------------------------------------------------------

  predicate DirectlyInside(lines: seq<Line>, a: nat, k: nat)
    requires k < |lines|
  {
    Encloses(lines, a, k) && forall j :: a < j < k ==> !Encloses(lines, j, k)
  }

  /** Line `k` is a text, cell or paragraph with words, directly inside line `a`. */
  predicate Says(lines: seq<Line>, a: nat, k: nat) {
    && k < |lines|
    && (lines[k].role == "text" || lines[k].role == "cell" || lines[k].role == "paragraph")
    && (lines[k].name != "" || (lines[k].value.Some? && lines[k].value.value != ""))
    && DirectlyInside(lines, a, k)
  }

  /** The lines among the first `n` with words directly inside line `a`. */
  ghost function Saying(lines: seq<Line>, a: nat, n: nat): set<nat> {
    set k: nat | k < n && Says(lines, a, k)
  }

  /** `words` are what line `k` says: its name, or else its value. */
  predicate WordsAt(lines: seq<Line>, k: nat, words: string) {
    k < |lines| && if lines[k].name != "" then words == lines[k].name else lines[k].value == Some(words)
  }

  lemma InnermostTold(lines: seq<Line>, k: nat, a: nat)
    requires k < |lines|
    ensures Innermost(lines, k, k) == Some(a) <==> DirectlyInside(lines, a, k)
  {
  }

  lemma TextStep(lines: seq<Line>, a: nat, k: nat)
    requires k < |lines|
    ensures Says(lines, a, k) ==>
      WordsAt(lines, k, Words(lines[k])) && TextsOf(lines, a, k + 1) == TextsOf(lines, a, k) + [Words(lines[k])]
    ensures !Says(lines, a, k) ==> TextsOf(lines, a, k + 1) == TextsOf(lines, a, k)
  {
    InnermostTold(lines, k, a);
    assert TextsOf(lines, a, k) + [] == TextsOf(lines, a, k);
  }

  predicate TextsAt(lines: seq<Line>, at: seq<nat>, texts: seq<string>) {
    |texts| == |at| && forall m :: 0 <= m < |at| ==> WordsAt(lines, at[m], texts[m])
  }

  lemma TextsAtMore(lines: seq<Line>, at: seq<nat>, texts: seq<string>, k: nat, words: string)
    requires TextsAt(lines, at, texts) && WordsAt(lines, k, words)
    ensures TextsAt(lines, at + [k], texts + [words])
  {
  }

  lemma SayingStep(lines: seq<Line>, a: nat, k: nat)
    ensures Saying(lines, a, k + 1) == if Says(lines, a, k) then Saying(lines, a, k) + {k} else Saying(lines, a, k)
  {
  }

  /** The words of a line are those of every text directly inside it so far, in page order. */
  lemma {:induction false} TextsTold(lines: seq<Line>, a: nat, n: nat) returns (at: seq<nat>)
    requires n <= |lines|
    ensures InOrder(at, Saying(lines, a, n)) && TextsAt(lines, at, TextsOf(lines, a, n))
  {
    at := [];
    if n > 0 {
      var front := TextsTold(lines, a, n - 1);
      TextStep(lines, a, n - 1);
      SayingStep(lines, a, n - 1);
      at := front;
      if Says(lines, a, n - 1) {
        InOrderMore(front, Saying(lines, a, n - 1), n - 1);
        TextsAtMore(lines, front, TextsOf(lines, a, n - 1), n - 1, Words(lines[n - 1]));
        at := front + [n - 1];
      }
    }
  }

  /** Words are joined by single spaces. */
  lemma {:induction false} JoinTold(words: seq<string>, last: string)
    ensures Join([]) == "" && Join([last]) == last
    ensures words != [] ==> Join(words + [last]) == Join(words) + " " + last
  {
    if |words| == 1 {
      assert words + [last] == [words[0], last] && (words + [last])[1..] == [last];
    } else if words != [] {
      assert (words + [last])[1..] == words[1..] + [last];
      JoinTold(words[1..], last);
    }
  }

  // ---- headings ------------------------------------------------------------------------

  predicate NamedHeading(l: Line) {
    l.role == "heading" && l.name != ""
  }

  /** `j` is the last line before `n` that is a named heading. */
  predicate LastHeading(lines: seq<Line>, n: nat, j: nat)
    requires n <= |lines|
  {
    j < n && NamedHeading(lines[j]) && forall k :: j < k < n ==> !NamedHeading(lines[k])
  }

  lemma {:induction false} HeadingTold(lines: seq<Line>, n: nat)
    requires n <= |lines|
    ensures (forall k :: 0 <= k < n ==> !NamedHeading(lines[k])) ==> HeadingAt(lines, n) == ""
    ensures forall j: nat :: LastHeading(lines, n, j) ==> HeadingAt(lines, n) == lines[j].name
  {
    if n > 0 {
      HeadingTold(lines, n - 1);
      forall j: nat | LastHeading(lines, n, j) ensures HeadingAt(lines, n) == lines[j].name {
        if j < n - 1 {
          assert LastHeading(lines, n - 1, j);
        }
      }
    }
  }

  // ---- selects and their options -------------------------------------------------------

  /** A named combobox that is not open. */
  predicate Native(l: Line) {
    l.role == "combobox" && l.name != "" && "expanded" !in l.attrs
  }

  /** Line `k` is an option inside line `s`, the last native select before it. */
  predicate HasOption(lines: seq<Line>, s: nat, k: nat) {
    && s < k < |lines| && lines[k].role == "option" && Native(lines[s]) && Encloses(lines, s, k)
    && forall j :: s < j < k ==> !Native(lines[j])
  }

  lemma {:induction false} LastSelectTold(lines: seq<Line>, n: nat, s: nat)
    requires n <= |lines| && s < n && Native(lines[s]) && forall j :: s < j < n ==> !Native(lines[j])
    ensures LastSelect(lines, n) == Some(s)
  {
    if s < n - 1 {
      LastSelectTold(lines, n - 1, s);
    }
  }

  lemma OwnerTold(lines: seq<Line>, k: nat, s: nat)
    requires k < |lines|
    ensures OwnerOf(lines, k) == Some(s) <==> HasOption(lines, s, k)
  {
    if HasOption(lines, s, k) {
      LastSelectTold(lines, k, s);
    }
  }

  /** The lines among the first `n` that are options of the select of line `s`. */
  ghost function OptionLines(lines: seq<Line>, s: nat, n: nat): set<nat> {
    set k: nat | k < n && HasOption(lines, s, k)
  }

  lemma OptionStep(lines: seq<Line>, s: nat, k: nat)
    requires k < |lines|
    ensures HasOption(lines, s, k) ==> OptionsOf(lines, s, k + 1) == OptionsOf(lines, s, k) + [lines[k].name]
    ensures !HasOption(lines, s, k) ==> OptionsOf(lines, s, k + 1) == OptionsOf(lines, s, k)
  {
    OwnerTold(lines, k, s);
    assert OptionsOf(lines, s, k) + [] == OptionsOf(lines, s, k);
  }

  lemma {:induction false} OptionsTold(lines: seq<Line>, s: nat, n: nat) returns (at: seq<nat>)
    requires n <= |lines|
    ensures InOrder(at, OptionLines(lines, s, n)) && |OptionsOf(lines, s, n)| == |at|
    ensures forall m :: 0 <= m < |at| ==> at[m] < |lines| && OptionsOf(lines, s, n)[m] == lines[at[m]].name
  {
    at := [];
    if n > 0 {
      var front := OptionsTold(lines, s, n - 1);
      OptionStep(lines, s, n - 1);
      if HasOption(lines, s, n - 1) {
        InOrderMore(front, OptionLines(lines, s, n - 1), n - 1);
        assert OptionLines(lines, s, n) == OptionLines(lines, s, n - 1) + {n - 1};
        at := front + [n - 1];
      } else {
        assert OptionLines(lines, s, n) == OptionLines(lines, s, n - 1);
        at := front;
      }
    }
  }

  predicate Chosen(lines: seq<Line>, s: nat, k: nat) {
    HasOption(lines, s, k) && "selected" in lines[k].attrs
  }

  /** `j` is the last option of the select below `n` that is selected. */
  predicate LastChosen(lines: seq<Line>, s: nat, n: nat, j: nat) {
    j < n && Chosen(lines, s, j) && forall k :: j < k < n ==> !Chosen(lines, s, k)
  }

  lemma ValueStep(lines: seq<Line>, s: nat, k: nat)
    requires s < |lines| && k < |lines|
    ensures ValueOf(lines, s, k + 1) == if Chosen(lines, s, k) then Some(lines[k].name) else ValueOf(lines, s, k)
  {
    OwnerTold(lines, k, s);
  }

  lemma {:induction false} ValueTold(lines: seq<Line>, s: nat, n: nat)
    requires s < |lines| && n <= |lines|
    ensures (forall k: nat :: k < n ==> !Chosen(lines, s, k)) ==> ValueOf(lines, s, n) == lines[s].value
    ensures forall j: nat :: LastChosen(lines, s, n, j) ==> ValueOf(lines, s, n) == Some(lines[j].name)
  {
    if n > 0 {
      ValueTold(lines, s, n - 1);
      ValueStep(lines, s, n - 1);
      forall j: nat | LastChosen(lines, s, n, j) ensures ValueOf(lines, s, n) == Some(lines[j].name) {
        if j < n - 1 {
          assert !Chosen(lines, s, n - 1);
          assert LastChosen(lines, s, n - 1, j);
        }
      }
    }
  }

  // ---- regions -------------------------------------------------------------------------

  predicate RegionRole(role: string) {
    role in {"row", "listitem", "dialog", "alertdialog", "group", "form", "region", "article", "tabpanel",
             "navigation"}
  }

  /** Line `a` is a region around line `i` that its name, or the words in it so far, make known. */
  ghost predicate Known(lines: seq<Line>, a: nat, i: nat)
    requires i < |lines|
  {
    && Encloses(lines, a, i) && RegionRole(lines[a].role)
    && (lines[a].name != "" || Saying(lines, a, i) != {})
  }

  ghost predicate InnermostKnown(lines: seq<Line>, a: nat, i: nat)
    requires i < |lines|
  {
    Known(lines, a, i) && forall j: nat :: a < j < i ==> !Known(lines, j, i)
  }

  lemma KnownTold(lines: seq<Line>, a: nat, i: nat)
    requires i < |lines|
    ensures Known(lines, a, i) <==> Encloses(lines, a, i) && NamesRegion(lines, a, i)
  {
    var at := TextsTold(lines, a, i);
    OnlyNoneIsEmpty(at, Saying(lines, a, i));
  }

  predicate FirstChars(s: string, cut: string) {
    cut <= s && |cut| == if |s| < 120 then |s| else 120
  }

  /** Where line `i` sits: in the innermost region known, by its name or else by the words in it,
      and under the last heading where there is none; the first 120 characters of it. */
  ghost predicate SitsIn(lines: seq<Line>, i: nat, region: string)
    requires i < |lines|
  {
    && (forall a: nat :: InnermostKnown(lines, a, i) ==>
          FirstChars(if lines[a].name != "" then lines[a].name else Join(TextsOf(lines, a, i)), region))
    && ((forall a: nat :: a < i ==> !Known(lines, a, i)) ==> FirstChars(HeadingAt(lines, i), region))
  }

  lemma RegionTold(lines: seq<Line>, i: nat)
    requires i < |lines|
    ensures SitsIn(lines, i, RegionOf(lines, i))
  {
    forall a: nat | InnermostKnown(lines, a, i) ensures HolderOf(lines, i, i) == Some(a) {
      HolderTold(lines, i, a);
    }
    if forall a: nat :: a < i ==> !Known(lines, a, i) {
      NoHolder(lines, i);
    }
  }

  lemma HolderTold(lines: seq<Line>, i: nat, a: nat)
    requires i < |lines| && InnermostKnown(lines, a, i)
    ensures HolderOf(lines, i, i) == Some(a)
  {
    KnownTold(lines, a, i);
    var h := HolderOf(lines, i, i);
    if h.Some? {
      KnownTold(lines, h.value, i);
    }
  }

  lemma NoHolder(lines: seq<Line>, i: nat)
    requires i < |lines| && forall a: nat :: a < i ==> !Known(lines, a, i)
    ensures HolderOf(lines, i, i) == None
  {
    var h := HolderOf(lines, i, i);
    if h.Some? {
      KnownTold(lines, h.value, i);
    }
  }

  // ---- controls ------------------------------------------------------------------------

  /** A named line of a control's role that is no option of a native select. */
  predicate ControlLine(lines: seq<Line>, k: nat) {
    && k < |lines| && lines[k].name != ""
    && lines[k].role in {"button", "link", "checkbox", "radio", "switch", "textbox", "searchbox", "spinbutton",
                         "combobox", "option", "tab", "menuitem", "menuitemcheckbox", "menuitemradio", "treeitem"}
    && forall s :: 0 <= s < k ==> !HasOption(lines, s, k)
  }

  lemma ControlLineTold(lines: seq<Line>, k: nat)
    requires k < |lines|
    ensures IsControl(lines, k) <==> ControlLine(lines, k)
  {
    var s := OwnerOf(lines, k);
    if s.Some? {
      OwnerTold(lines, k, s.value);
    }
    forall s: nat | HasOption(lines, s, k) ensures OwnerOf(lines, k) == Some(s) {
      OwnerTold(lines, k, s);
    }
  }

  /** The control has the line's role, name and states, ticked or not where it can be ticked. */
  predicate ShowsStates(l: Line, c: Control) {
    && c.role == l.role && c.name == l.name
    && (c.selected <==> "selected" in l.attrs) && (c.expanded <==> "expanded" in l.attrs)
    && (c.disabled <==> "disabled" in l.attrs)
    && (if l.role == "checkbox" || l.role == "radio" || l.role == "switch" then c.checked == Some("checked" in l.attrs)
        else if "checked" in l.attrs then c.checked == Some(true) else c.checked == None)
  }

  /** It shows its own value, or its last selected option, and lists its options if it has any. */
  ghost predicate ShowsChoice(lines: seq<Line>, i: nat, value: Option<string>, options: Option<seq<string>>)
    requires i < |lines|
  {
    && ((forall k: nat :: k < |lines| ==> !Chosen(lines, i, k)) ==> value == lines[i].value)
    && (forall j: nat :: LastChosen(lines, i, |lines|, j) ==> value == Some(lines[j].name))
    && (options == None <==> OptionLines(lines, i, |lines|) == {})
    && (options.Some? ==> exists at :: OptionsAt(lines, i, at, options.value))
  }

  /** Control `c` says what line `i` shows, and where it sits. */
  ghost predicate Tells(lines: seq<Line>, c: Control, i: nat)
    requires i < |lines|
  {
    ShowsStates(lines[i], c) && ShowsChoice(lines, i, c.value, c.options) && SitsIn(lines, i, c.region)
  }

  /** `names` are the names of the options of select `i`, in page order. */
  ghost predicate OptionsAt(lines: seq<Line>, i: nat, at: seq<nat>, names: seq<string>) {
    && InOrder(at, OptionLines(lines, i, |lines|))
    && |names| == |at| && forall m :: 0 <= m < |at| ==> at[m] < |lines| && names[m] == lines[at[m]].name
  }

  /** Which of its like a control is, and how many there are. */
  ghost predicate Numbered(controls: seq<Control>, m: nat)
    requires m < |controls|
  {
    && controls[m].nth == |set k | 0 <= k < m && Same(controls[k], controls[m])|
    && controls[m].count == |set k | 0 <= k < |controls| && Same(controls[k], controls[m])|
  }

  lemma {:induction false} CountIs(controls: seq<Control>, n: nat, c: Control)
    requires n <= |controls|
    ensures CountSame(controls[..n], c) == |set k | 0 <= k < n && Same(controls[k], c)|
  {
    if n > 0 {
      CountIs(controls, n - 1, c);
      assert controls[..n][..n - 1] == controls[..n - 1];
      var before := set k | 0 <= k < n - 1 && Same(controls[k], c);
      var all := set k | 0 <= k < n && Same(controls[k], c);
      assert all == if Same(controls[n - 1], c) then before + {n - 1} else before;
    }
  }

  lemma NumberedTold(drafts: seq<Control>, controls: seq<Control>, m: nat)
    requires |controls| == |drafts| && forall k :: 0 <= k < |drafts| ==> controls[k] == Finished(drafts, k)
    requires m < |drafts|
    ensures Numbered(controls, m)
  {
    var c := drafts[m];
    CountIs(drafts, m, c);
    CountIs(drafts, |drafts|, c);
    assert drafts[..|drafts|] == drafts;
    assert (set k | 0 <= k < m && Same(controls[k], controls[m])) == set k | 0 <= k < m && Same(drafts[k], c);
    assert (set k | 0 <= k < |drafts| && Same(controls[k], controls[m])) ==
           set k | 0 <= k < |drafts| && Same(drafts[k], c);
  }

  lemma OptionsRight(lines: seq<Line>, i: nat, options: Option<seq<string>>)
    requires i < |lines|
    requires options == if !SelectLike(lines[i]) || OptionsOf(lines, i, |lines|) == [] then None
                        else Some(OptionsOf(lines, i, |lines|))
    ensures options == None <==> OptionLines(lines, i, |lines|) == {}
    ensures options.Some? ==> exists at :: OptionsAt(lines, i, at, options.value)
  {
    var at := OptionsTold(lines, i, |lines|);
    OnlyNoneIsEmpty(at, OptionLines(lines, i, |lines|));
    if options.Some? {
      assert OptionsAt(lines, i, at, options.value);
    }
  }

  lemma ChoiceTold(lines: seq<Line>, i: nat, options: Option<seq<string>>)
    requires i < |lines|
    requires options == if !SelectLike(lines[i]) || OptionsOf(lines, i, |lines|) == [] then None
                        else Some(OptionsOf(lines, i, |lines|))
    ensures ShowsChoice(lines, i, ValueOf(lines, i, |lines|), options)
  {
    ValueTold(lines, i, |lines|);
    OptionsRight(lines, i, options);
  }

  lemma DraftTold(lines: seq<Line>, i: nat, c: Control)
    requires i < |lines|
    requires
      var d := Draft(lines, i, |lines|);
      c == d.(nth := c.nth, count := c.count, options := if d.options == Some([]) then None else d.options)
    ensures Tells(lines, c, i)
  {
    ChoiceTold(lines, i, c.options);
    RegionTold(lines, i);
  }

  /** The controls read are the control lines of the page, in page order, each saying what its
      line shows and numbered among its like. */
  lemma ControlsTold(lines: seq<Line>, controls: seq<Control>) returns (at: seq<nat>)
    requires ReadRight(lines, controls)
    ensures InOrder(at, set k: nat | k < |lines| && ControlLine(lines, k))
    ensures |controls| == |at|
    ensures forall m :: 0 <= m < |at| ==>
      at[m] < |lines| && Tells(lines, controls[m], at[m]) && Numbered(controls, m)
  {
    at := ControlLines(lines, |lines|);
    forall k: nat | k < |lines| ensures IsControl(lines, k) <==> ControlLine(lines, k) {
      ControlLineTold(lines, k);
    }
    forall m | 0 <= m < |at|
      ensures at[m] < |lines| && Tells(lines, controls[m], at[m]) && Numbered(controls, m)
    {
      assert at[m] in at;
      DraftTold(lines, at[m], controls[m]);
      NumberedTold(Drafts(lines), controls, m);
    }
  }
}
