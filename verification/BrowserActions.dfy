/** The controls of one observed page and every action they allow. */
module BrowserActions {
  import opened Wrappers

  datatype Control = Control(
    role: string, name: string, nth: nat, count: nat,
    checked: Option<bool>, selected: bool, expanded: bool, disabled: bool,
    value: Option<string>, options: Option<seq<string>>, region: string)

  datatype Operation = Click | Type(valueKey: string, submit: bool) | Select(option: string)

  datatype Entry = Entry(key: string, value: string)

  /** An action as it is described to Jev; the text is taken as its parts. */
  datatype Description = Description(
    verb: string, subject: string, role: string, name: string, now: string, region: string)

  datatype Action = Action(key: nat, control: Control, operation: Operation, describe: Description)

  const TEXT_ROLES := {"textbox", "searchbox", "spinbutton"}

  /** Where the control sits, when that says more than its name. */
  function Where(c: Control): string {
    if c.region != c.name then c.region else ""
  }

  function ValueNow(c: Control): string {
    if c.value.Some? then c.value.value else ""
  }

  function Describe(c: Control, op: Operation): Description {
    match op
    case Select(option) => Description("select", option, "", c.name, ValueNow(c), Where(c))
    case Type(key, submit) =>
      if submit then Description("type and press Enter", key, c.role, c.name, "", Where(c))
      else Description("type", key, c.role, c.name, ValueNow(c), Where(c))
    case Click =>
      if c.checked == None then Description("click", "", c.role, c.name, if c.expanded then "open" else "", Where(c))
      else if c.role == "radio" then Description("choose", "", c.role, c.name, "", Where(c))
      else Description(if c.checked.value then "untick" else "tick", "", c.role, c.name,
                       if c.checked.value then "ticked" else "not ticked", Where(c))
  }

  // ---- what a control supports, stated apart from the listing --------------------------

  /** What one control can be asked to do, given the values the browser task may type. */
  predicate Supports(c: Control, values: seq<Entry>, op: Operation) {
    && !c.disabled
    && if c.options.Some? then op.Select? && op.option in c.options.value && c.value != Some(op.option)
       else if c.role in TEXT_ROLES then
         op.Type? && (op.submit ==> c.role == "searchbox")
         && exists e :: e in values && e.key == op.valueKey && c.value != Some(e.value)
       else op.Click? && !(c.role == "radio" && c.checked == Some(true))
  }

  /** The action is one the page's controls support, described as it is. */
  predicate Justified(controls: seq<Control>, values: seq<Entry>, a: Action) {
    a.control in controls && Supports(a.control, values, a.operation) && a.describe == Describe(a.control, a.operation)
  }

  method Add(actions: seq<Action>, c: Control, op: Operation) returns (r: seq<Action>)
    ensures r == actions + [Action(|actions| + 1, c, op, Describe(c, op))]
  {
    r := actions + [Action(|actions| + 1, c, op, Describe(c, op))];
  }

  ghost predicate Keyed(actions: seq<Action>) {
    forall i :: 0 <= i < |actions| ==> actions[i].key == i + 1
  }

  ghost predicate Offers(actions: seq<Action>, c: Control, op: Operation) {
    exists a :: a in actions && a.control == c && a.operation == op
  }

  lemma OffersMore(actions: seq<Action>, a: Action, c: Control, op: Operation)
    ensures Offers(actions, c, op) ==> Offers(actions + [a], c, op)
    ensures Offers(actions + [a], a.control, a.operation)
  {
    assert a in actions + [a];
    if Offers(actions, c, op) {
      var b :| b in actions && b.control == c && b.operation == op;
      assert b in actions + [a];
    }
  }

  ghost predicate Grown(before: seq<Action>, actions: seq<Action>) {
    forall c, op :: Offers(before, c, op) ==> Offers(actions, c, op)
  }

  ghost predicate AllJustified(controls: seq<Control>, values: seq<Entry>, actions: seq<Action>) {
    forall a :: a in actions ==> Justified(controls, values, a)
  }

  /** One action more. */
  method AddOne(before: seq<Action>, c: Control, op: Operation, ghost controls: seq<Control>, ghost values: seq<Entry>)
    returns (actions: seq<Action>)
    requires c in controls && Supports(c, values, op) && Keyed(before) && AllJustified(controls, values, before)
    ensures Keyed(actions) && Grown(before, actions) && AllJustified(controls, values, actions)
    ensures Offers(actions, c, op)
  {
    actions := Add(before, c, op);
    forall d, o | Offers(before, d, o)
      ensures Offers(actions, d, o)
    {
      OffersMore(before, actions[|before|], d, o);
    }
    OffersMore(before, actions[|before|], c, op);
  }

  method AddSelects(before: seq<Action>, c: Control, ghost controls: seq<Control>,
                    ghost values: seq<Entry>) returns (actions: seq<Action>)
    requires c in controls && !c.disabled && c.options.Some? && Keyed(before) && AllJustified(controls, values, before)
    ensures Keyed(actions) && Grown(before, actions) && AllJustified(controls, values, actions)
    ensures forall op :: Supports(c, values, op) ==> Offers(actions, c, op)
  {
    actions := before;
    for i := 0 to |c.options.value|
      invariant Keyed(actions) && Grown(before, actions) && AllJustified(controls, values, actions)
      invariant forall k :: 0 <= k < i && c.value != Some(c.options.value[k]) ==>
        Offers(actions, c, Select(c.options.value[k]))
    {
      var option := c.options.value[i];
      if c.value == Some(option) { continue; }
      actions := AddOne(actions, c, Select(option), controls, values);
    }
  }

  method AddTypes(before: seq<Action>, c: Control, ghost controls: seq<Control>,
                  values: seq<Entry>) returns (actions: seq<Action>)
    requires c in controls && !c.disabled && c.options == None && c.role in TEXT_ROLES
    requires Keyed(before) && AllJustified(controls, values, before)
    ensures Keyed(actions) && Grown(before, actions) && AllJustified(controls, values, actions)
    ensures forall op :: Supports(c, values, op) ==> Offers(actions, c, op)
  {
    actions := before;
    for i := 0 to |values|
      invariant Keyed(actions) && Grown(before, actions) && AllJustified(controls, values, actions)
      invariant forall k :: 0 <= k < i && c.value != Some(values[k].value) ==>
        && Offers(actions, c, Type(values[k].key, false))
        && (c.role == "searchbox" ==> Offers(actions, c, Type(values[k].key, true)))
    {
      var e := values[i];
      if c.value == Some(e.value) { continue; }
      assert e in values;
      actions := AddOne(actions, c, Type(e.key, false), controls, values);
      if c.role == "searchbox" {
        actions := AddOne(actions, c, Type(e.key, true), controls, values);
      }
    }
  }

  /** One control's actions, added to those before it. */
  method AddControl(before: seq<Action>, c: Control, ghost controls: seq<Control>,
                    values: seq<Entry>) returns (actions: seq<Action>)
    requires c in controls && Keyed(before) && AllJustified(controls, values, before)
    ensures Keyed(actions) && Grown(before, actions) && AllJustified(controls, values, actions)
    ensures forall op :: Supports(c, values, op) ==> Offers(actions, c, op)
  {
    actions := before;
    if c.disabled { return; }
    if c.options.Some? {
      actions := AddSelects(before, c, controls, values);
      return;
    }
    if c.role in TEXT_ROLES {
      actions := AddTypes(before, c, controls, values);
      return;
    }
    if c.checked.Some? && c.role == "radio" && c.checked.value { return; }
    actions := AddOne(actions, c, Click, controls, values);
  }

  /** Every action the page allows: only what a control supports, and all of it. */
  method BrowserTaskActions(controls: seq<Control>, values: seq<Entry>) returns (actions: seq<Action>)
    ensures Keyed(actions)
    ensures forall a :: a in actions ==> Justified(controls, values, a)
    ensures forall c, op :: c in controls && Supports(c, values, op) ==> Offers(actions, c, op)
  {
    actions := [];
    for i := 0 to |controls|
      invariant Keyed(actions) && AllJustified(controls, values, actions)
      invariant forall k, op :: 0 <= k < i && Supports(controls[k], values, op) ==> Offers(actions, controls[k], op)
    {
      actions := AddControl(actions, controls[i], controls, values);
    }
  }

  // ---- what is offered, and how it is told ---------------------------------------------

  /** What is listed, read off the controls: an option of a select that is not the one shown; a
      value to type into a text field that does not hold it, with Enter in a search box; and a
      click on anything else but a radio already chosen. A disabled control offers nothing. */
  lemma OffersExactly(controls: seq<Control>, values: seq<Entry>, actions: seq<Action>, c: Control)
    requires AllJustified(controls, values, actions) && c in controls
    requires forall op :: Supports(c, values, op) ==> Offers(actions, c, op)
    ensures
      var text := c.role == "textbox" || c.role == "searchbox" || c.role == "spinbutton";
      && (forall o :: Offers(actions, c, Select(o)) <==>
            !c.disabled && c.options.Some? && o in c.options.value && c.value != Some(o))
      && (forall k, submit :: Offers(actions, c, Type(k, submit)) <==>
            && !c.disabled && c.options == None && text && (submit ==> c.role == "searchbox")
            && exists e :: e in values && e.key == k && c.value != Some(e.value))
      && (Offers(actions, c, Click) <==>
            !c.disabled && c.options == None && !text && !(c.role == "radio" && c.checked == Some(true)))
  {
    forall op ensures Offers(actions, c, op) <==> Supports(c, values, op) {
      if Offers(actions, c, op) {
        var a :| a in actions && a.control == c && a.operation == op;
        assert Justified(controls, values, a);
      }
    }
  }

  /** No two things one control offers are described alike. */
  lemma ToldApart(c: Control, values: seq<Entry>, a: Operation, b: Operation)
    requires Supports(c, values, a) && Supports(c, values, b) && Describe(c, a) == Describe(c, b)
    ensures a == b
  {
  }

  /** A description says what taking the action would change: the box's tick, the choice or value
      the control shows now, or that it is open; and the region where that is not its name. */
  lemma DescribesState(c: Control, op: Operation)
    ensures
      var d := Describe(c, op);
      && d.name == c.name && d.region == (if c.region == c.name then "" else c.region)
      && match op
         case Select(o) => d.verb == "select" && d.subject == o && (c.value.Some? ==> d.now == c.value.value)
         case Type(k, submit) =>
           d.subject == k && d.role == c.role && (d.verb == "type" <==> !submit)
           && (!submit && c.value.Some? ==> d.now == c.value.value)
         case Click =>
           && d.role == c.role
           && (d.verb == "choose" <==> c.checked.Some? && c.role == "radio")
           && (d.verb == "untick" <==> c.checked == Some(true) && c.role != "radio")
           && (d.verb == "tick" <==> c.checked == Some(false) && c.role != "radio")
           && (d.now == "ticked" <==> d.verb == "untick") && (d.now == "not ticked" <==> d.verb == "tick")
           && (d.now == "open" <==> c.checked == None && c.expanded)
  {
  }
}
