/** The locally kept lists of the wallet page (`useFinance`): quick actions
    and subscriptions, edited through small forms, and the progress of saving
    goals. Form amounts arrive as text; the guard tests the text and the
    stored amount is the parsed number, passed in as a parameter. Fresh ids
    (`Date.now()`) are parameters too. */
module FinanceLists {
  import opened Common

  /** `label` is called `title` here, `label` being a Dafny keyword. */
  datatype QuickAction = QuickAction(id: string, title: string, amount: int, category: string)

  datatype QuickForm = QuickForm(title: string, amountText: string, category: string)

  /** The quick-action list, the id being edited and the form. */
  datatype QuickState = QuickState(actions: seq<QuickAction>, editing: Option<string>, form: QuickForm)

  const BlankQuickForm: QuickForm := QuickForm("", "", "Transport")

  /** The id being edited is truthy: present and not the empty string. */
  predicate IsEditing(editing: Option<string>) {
    editing.Some? && editing.value != ""
  }

  /** The entry `{ ...q, label, amount, category }` of an edited action. */
  function Edited(q: QuickAction, title: string, amount: int, category: string): QuickAction {
    QuickAction(q.id, title, amount, category)
  }

  /** `quickActions.map(q => q.id === id ? { ...q, ... } : q)`. */
  function EditActions(actions: seq<QuickAction>, id: string, title: string, amount: int, category: string): (r: seq<QuickAction>)
    ensures |r| == |actions|
    ensures forall i :: 0 <= i < |r| ==> r[i].id == actions[i].id
    ensures forall i :: 0 <= i < |r| && actions[i].id != id ==> r[i] == actions[i]
    ensures forall i :: 0 <= i < |r| && actions[i].id == id ==>
              r[i].title == title && r[i].amount == amount && r[i].category == category
  {
    if |actions| == 0 then []
    else
      var head := if actions[0].id == id then Edited(actions[0], title, amount, category) else actions[0];
      [head] + EditActions(actions[1..], id, title, amount, category)
  }

  /** `handleAddQuickAction`, with `amount` the parsed form amount and
      `freshId` the new entry's id. */
  function SaveQuickAction(s: QuickState, amount: int, freshId: string): (r: QuickState)
    // Nothing happens while the title or the amount text is empty.
    ensures s.form.title == "" || s.form.amountText == "" ==> r == s
    // Editing rewrites the entries with the edited id, keeps every id, and ends the edit.
    ensures s.form.title != "" && s.form.amountText != "" && IsEditing(s.editing) ==>
              && |r.actions| == |s.actions|
              && (forall i :: 0 <= i < |r.actions| ==> r.actions[i].id == s.actions[i].id)
              && (forall i :: 0 <= i < |r.actions| && s.actions[i].id != s.editing.value ==> r.actions[i] == s.actions[i])
              && (forall i :: 0 <= i < |r.actions| && s.actions[i].id == s.editing.value ==>
                    r.actions[i] == QuickAction(s.editing.value, s.form.title, amount, s.form.category))
              && r.editing == None && r.form == BlankQuickForm
    // Otherwise exactly one entry is appended.
    ensures s.form.title != "" && s.form.amountText != "" && !IsEditing(s.editing) ==>
              && r.actions == s.actions + [QuickAction(freshId, s.form.title, amount, s.form.category)]
              && r.editing == s.editing && r.form == BlankQuickForm
  {
    if s.form.title != "" && s.form.amountText != "" then
      if IsEditing(s.editing) then
        QuickState(EditActions(s.actions, s.editing.value, s.form.title, amount, s.form.category), None, BlankQuickForm)
      else
        QuickState(s.actions + [QuickAction(freshId, s.form.title, amount, s.form.category)], s.editing, BlankQuickForm)
    else s
  }

  /** `deleteQuickAction(id)`; `confirmed` is the answer to the confirmation
      dialog. */
  function DeleteQuickAction(actions: seq<QuickAction>, id: string, confirmed: bool): (r: seq<QuickAction>)
    ensures !confirmed ==> r == actions
    ensures forall i :: 0 <= i < |r| ==> r[i] in actions
  {
    if confirmed then
      FilterContents(actions, (q: QuickAction) => q.id != id);
      Filter(actions, (q: QuickAction) => q.id != id)
    else actions
  }

  /** A confirmed delete removes exactly the entries with that id, and an
      unknown id leaves the list as it was. */
  lemma {:induction false} DeleteQuickActionExact(actions: seq<QuickAction>, id: string)
    ensures forall q :: q in DeleteQuickAction(actions, id, true) <==> q in actions && q.id != id
    ensures (forall i :: 0 <= i < |actions| ==> actions[i].id != id) ==> DeleteQuickAction(actions, id, true) == actions
  {
    FilterContents(actions, (q: QuickAction) => q.id != id);
    if forall i :: 0 <= i < |actions| ==> actions[i].id != id {
      FilterKeepsAll(actions, (q: QuickAction) => q.id != id);
    }
  }

  /** Editing an entry and then deleting it leaves the same list as deleting
      it straight away: an edit never touches another entry. */
  lemma {:induction false} EditThenDelete(actions: seq<QuickAction>, id: string, title: string, amount: int, category: string)
    ensures DeleteQuickAction(EditActions(actions, id, title, amount, category), id, true)
              == DeleteQuickAction(actions, id, true)
  {
    if |actions| > 0 {
      EditThenDelete(actions[1..], id, title, amount, category);
      var edited := EditActions(actions, id, title, amount, category);
      assert edited[1..] == EditActions(actions[1..], id, title, amount, category);
    }
  }

  /** A monthly subscription; `title` is its `label`. */
  datatype Subscription = Subscription(id: string, title: string, amount: int, category: string, dayOfMonth: int)

  datatype SubscriptionForm = SubscriptionForm(title: string, amountText: string, category: string, dayText: string)

  const BlankSubscriptionForm: SubscriptionForm := SubscriptionForm("", "", "Bills", "")

  /** `handleAddSubscription`, with `amount` and `day` the parsed form
      fields; the result is the new list and the new form. */
  function AddSubscription(subs: seq<Subscription>, form: SubscriptionForm, amount: int, day: int, freshId: string)
    : (r: (seq<Subscription>, SubscriptionForm))
    ensures form.title == "" || form.amountText == "" || form.dayText == "" ==> r == (subs, form)
    ensures form.title != "" && form.amountText != "" && form.dayText != "" ==>
              && r.0 == subs + [Subscription(freshId, form.title, amount, form.category, day)]
              && r.1 == BlankSubscriptionForm
  {
    if form.title != "" && form.amountText != "" && form.dayText != "" then
      (subs + [Subscription(freshId, form.title, amount, form.category, day)], BlankSubscriptionForm)
    else (subs, form)
  }

  /** `deleteSubscription(id)` after the confirmation dialog. */
  function DeleteSubscription(subs: seq<Subscription>, id: string, confirmed: bool): (r: seq<Subscription>)
    ensures !confirmed ==> r == subs
    ensures forall i :: 0 <= i < |r| ==> r[i].id != id || !confirmed
  {
    if confirmed then Filter(subs, (s: Subscription) => s.id != id) else subs
  }

  /** A confirmed delete removes exactly the subscriptions with that id, and
      an unknown id leaves the list as it was. */
  lemma {:induction false} DeleteSubscriptionExact(subs: seq<Subscription>, id: string)
    ensures forall s :: s in DeleteSubscription(subs, id, true) <==> s in subs && s.id != id
    ensures (forall i :: 0 <= i < |subs| ==> subs[i].id != id) ==> DeleteSubscription(subs, id, true) == subs
  {
    FilterContents(subs, (s: Subscription) => s.id != id);
    if forall i :: 0 <= i < |subs| ==> subs[i].id != id {
      FilterKeepsAll(subs, (s: Subscription) => s.id != id);
    }
  }

  /** Adding a subscription and deleting it by its fresh id restores the list. */
  lemma {:induction false} AddThenDeleteSubscription(subs: seq<Subscription>, form: SubscriptionForm, amount: int, day: int, freshId: string)
    requires forall i :: 0 <= i < |subs| ==> subs[i].id != freshId
    ensures DeleteSubscription(AddSubscription(subs, form, amount, day, freshId).0, freshId, true) == subs
  {
    var p := (s: Subscription) => s.id != freshId;
    FilterKeepsAll(subs, p);
    var added := Subscription(freshId, form.title, amount, form.category, day);
    FilterAppend(subs, [added], p);
    assert Filter([added], p) == [];
  }

  datatype Saving = Saving(id: string, name: string, target: int, current: int)

  /** `savings.find(s => s.id === id)`. */
  function FindSaving(savings: seq<Saving>, id: string): (r: Option<Saving>)
    ensures r.None? <==> forall i :: 0 <= i < |savings| ==> savings[i].id != id
    ensures r.Some? ==> r.value.id == id && r.value in savings
  {
    Find(savings, (x: Saving) => x.id == id)
  }

  /** The outcome of `updateSavingAmount`: the new list and whether the
      celebration fired. */
  datatype SavingUpdate = SavingUpdate(savings: seq<Saving>, celebrate: bool)

  /** A goal is crossed when the new amount reaches the target and the old
      one had not. */
  predicate Crossed(current: int, add: int, target: int) {
    current + add >= target && current < target
  }

  /** `updateSavingAmount(id, addAmount)`: `None` when no goal has that id
      (the function returns early); `saved` says whether the backend
      returned the updated row, which is the found goal with its new amount. */
  function UpdateSavingAmount(savings: seq<Saving>, id: string, add: int, saved: bool): (r: Option<SavingUpdate>)
    ensures r.None? <==> forall i :: 0 <= i < |savings| ==> savings[i].id != id
    ensures r.Some? ==> |r.value.savings| == |savings|
    ensures r.Some? ==> var found := FindSaving(savings, id).value;
              && (r.value.celebrate <==> Crossed(found.current, add, found.target))
              && (saved ==> forall i :: 0 <= i < |savings| ==>
                    r.value.savings[i] == if savings[i].id == id then found.(current := found.current + add) else savings[i])
              && (!saved ==> r.value.savings == savings)
  {
    match FindSaving(savings, id)
    case None => None
    case Some(found) =>
      var row := found.(current := found.current + add);
      var updated := if saved then seq(|savings|, i requires 0 <= i < |savings| => if savings[i].id == id then row else savings[i])
                     else savings;
      Some(SavingUpdate(updated, Crossed(found.current, add, found.target)))
  }

  /** After an update that fired the celebration and was saved, the next
      update of that goal does not fire it again, whatever amount it adds. */
  lemma {:induction false} CelebratesOnce(savings: seq<Saving>, id: string, add: int, later: int, saved: bool)
    requires var r := UpdateSavingAmount(savings, id, add, true); r.Some? && r.value.celebrate
    ensures var next := UpdateSavingAmount(UpdateSavingAmount(savings, id, add, true).value.savings, id, later, saved);
            next.Some? && !next.value.celebrate
  {
    var found := FindSaving(savings, id).value;
    var after := UpdateSavingAmount(savings, id, add, true).value.savings;
    var k :| 0 <= k < |savings| && savings[k] == found;
    assert after[k].id == id;
    var again := FindSaving(after, id).value;
    var j :| 0 <= j < |after| && after[j] == again;
    assert savings[j].id == id;
  }

  /** The goal with that id has reached its target, as `find` sees it. */
  predicate Reached(savings: seq<Saving>, id: string) {
    var f := FindSaving(savings, id);
    f.Some? && f.value.current >= f.value.target
  }

  /** A goal that has reached its target stays reached under a non-negative
      deposit, and that deposit does not celebrate. */
  lemma ReachedStays(savings: seq<Saving>, id: string, add: int, saved: bool)
    requires Reached(savings, id) && add >= 0
    ensures var r := UpdateSavingAmount(savings, id, add, saved);
            r.Some? && !r.value.celebrate && Reached(r.value.savings, id)
  {
    var found := FindSaving(savings, id).value;
    var r := UpdateSavingAmount(savings, id, add, saved).value;
    if saved {
      var again := FindSaving(r.savings, id).value;
      var j :| 0 <= j < |r.savings| && r.savings[j] == again;
      assert savings[j].id == id;
    }
  }

  /** A celebrating update that was saved leaves the goal reached. */
  lemma CelebrationReaches(savings: seq<Saving>, id: string, add: int)
    requires var r := UpdateSavingAmount(savings, id, add, true); r.Some? && r.value.celebrate
    ensures Reached(UpdateSavingAmount(savings, id, add, true).value.savings, id)
  {
    var found := FindSaving(savings, id).value;
    var after := UpdateSavingAmount(savings, id, add, true).value.savings;
    var again := FindSaving(after, id).value;
    var j :| 0 <= j < |after| && after[j] == again;
    assert savings[j].id == id;
  }

  /** Runs the updates `steps` (amount added, whether the backend saved it)
      one after the other on goal `id`, and holds when each finds the goal and
      none celebrates. */
  predicate NoneCelebrate(savings: seq<Saving>, id: string, steps: seq<(int, bool)>)
    decreases |steps|
  {
    if |steps| == 0 then true
    else
      var r := UpdateSavingAmount(savings, id, steps[0].0, steps[0].1);
      r.Some? && !r.value.celebrate && NoneCelebrate(r.value.savings, id, steps[1..])
  }

  /** Once a goal has reached its target, no run of non-negative deposits
      celebrates it. */
  lemma {:induction false} ReachedNeverCelebrates(savings: seq<Saving>, id: string, steps: seq<(int, bool)>)
    requires Reached(savings, id)
    requires forall i :: 0 <= i < |steps| ==> steps[i].0 >= 0
    ensures NoneCelebrate(savings, id, steps)
    decreases |steps|
  {
    if |steps| > 0 {
      ReachedStays(savings, id, steps[0].0, steps[0].1);
      var r := UpdateSavingAmount(savings, id, steps[0].0, steps[0].1).value;
      ReachedNeverCelebrates(r.savings, id, steps[1..]);
    }
  }

  /** The celebration fires once per goal as long as only the deposit buttons
      and non-negative prompt amounts follow the celebrating update. */
  lemma {:induction false} CelebratesOnceForDeposits(savings: seq<Saving>, id: string, add: int, steps: seq<(int, bool)>)
    requires var r := UpdateSavingAmount(savings, id, add, true); r.Some? && r.value.celebrate
    requires forall i :: 0 <= i < |steps| ==> steps[i].0 >= 0
    ensures NoneCelebrate(UpdateSavingAmount(savings, id, add, true).value.savings, id, steps)
  {
    CelebrationReaches(savings, id, add);
    ReachedNeverCelebrates(UpdateSavingAmount(savings, id, add, true).value.savings, id, steps);
  }

  /** A negative prompt amount can take a goal below its target again, and the
      next deposit then celebrates a second time. */
  lemma WithdrawalCelebratesAgain()
    ensures var goal := [Saving("g", "Laptop", 100, 0)];
            var first := UpdateSavingAmount(goal, "g", 100, true).value;
            var second := UpdateSavingAmount(first.savings, "g", -50, true).value;
            var third := UpdateSavingAmount(second.savings, "g", 50, true).value;
            first.celebrate && !second.celebrate && third.celebrate
  {
    var goal := [Saving("g", "Laptop", 100, 0)];
    var first := UpdateSavingAmount(goal, "g", 100, true).value;
    assert first.savings == [Saving("g", "Laptop", 100, 100)];
    var second := UpdateSavingAmount(first.savings, "g", -50, true).value;
    assert second.savings == [Saving("g", "Laptop", 100, 50)];
  }
}
