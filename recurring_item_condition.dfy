/** The "Product on Subscription" condition of the shipping restrictions:
    whether a restriction applies to a package, depending on the subscription
    items in it and the billing periods the merchant selected, and the message
    that tells the shopper how to lift the restriction.

    The host platform's answers (is a renewal in the cart, the renewed
    subscription's billing period, is an item a subscription and with which
    period, does the cart contain a subscription) are plain inputs here. */
module RecurringItemCondition {

  import opened Php

  /** The identifier the condition stores with its configuration. */
  const ConditionId := "recurring_item_in_package"

  /** The merchant's configuration: a modifier (`in`, `not-in`, `all-in`,
      `not-all-in`, or anything else that was posted) and the selected billing
      period tokens (`day`, `week`, `month`, `year`). */
  datatype ConditionData = ConditionData(modifier: string, value: seq<string>)

  /** One cart line item: does it carry `subscription_renewal`, is its product a
      subscription, and the product's billing period. */
  datatype CartItem = CartItem(isRenewal: bool, isSubscription: bool, period: string)

  /** A shipping package: its line items and the optional `billing_period`
      extra variable that marks a recurring sub-package. */
  datatype Package = Package(contents: seq<CartItem>, billingPeriod: Option<string>)

  /** The renewal being processed; its subscription's billing period is `None`
      when the subscription cannot be found. */
  datatype Renewal = Renewal(subscriptionPeriod: Option<string>)

  /** What the cart as a whole contains. */
  datatype CartState = CartState(renewal: Option<Renewal>, containsSubscription: bool)

  /** `modifier_is`: the modifier is one of the listed ones. */
  predicate ModifierIs(modifier: string, options: seq<string>)
  {
    modifier in options
  }

  /** The package is missing or has no contents. */
  predicate EmptyPackage(package: Option<Package>)
  {
    package.None? || package.value.contents == []
  }

  // ---------------------------------------------------------------------------
  // Reference semantics of check_condition

  /** The outcome shared by the renewal and the subscription branches: `in` asks
      for some matching item, `all-in` for every item matching, and the `not-`
      forms for the negations. Any other modifier yields false. */
  predicate Decide(modifier: string, some: bool, every: bool)
  {
    (modifier == "in" && some) || (modifier == "not-in" && !some) ||
    (modifier == "all-in" && every) || (modifier == "not-all-in" && !every)
  }

  /** An item counts as a matching renewal. */
  predicate MatchingRenewal(item: CartItem, periodMatches: bool)
  {
    item.isRenewal && periodMatches
  }

  /** An item is a subscription on one of the chosen billing periods. */
  predicate MatchingSubscription(item: CartItem, values: seq<string>)
  {
    item.isSubscription && item.period in values
  }

  /** A recurring sub-package: decided by its own billing period alone. */
  predicate RecurringHolds(data: ConditionData, billingPeriod: string)
  {
    if ModifierIs(data.modifier, ["in", "all-in"]) then billingPeriod in data.value
    else if ModifierIs(data.modifier, ["not-in", "not-all-in"]) then billingPeriod !in data.value
    else false
  }

  /** The initial package, scanning every item with no early exit. */
  predicate InitialHolds(data: ConditionData, contents: seq<CartItem>, cart: CartState)
  {
    if contents == [] then false
    else match cart.renewal
      case Some(renewal) =>
        var matches := LooselyIn(renewal.subscriptionPeriod, data.value);
        Decide(data.modifier,
               exists k :: 0 <= k < |contents| && MatchingRenewal(contents[k], matches),
               forall k :: 0 <= k < |contents| ==> MatchingRenewal(contents[k], matches))
      case None =>
        if cart.containsSubscription then
          Decide(data.modifier,
                 exists k :: 0 <= k < |contents| && MatchingSubscription(contents[k], data.value),
                 forall k :: 0 <= k < |contents| ==> MatchingSubscription(contents[k], data.value))
        else ModifierIs(data.modifier, ["not-in", "not-all-in"])
  }

  /** Whether the condition is in effect for the package. */
  predicate ConditionHolds(data: ConditionData, package: Option<Package>, cart: CartState)
  {
    if EmptyPackage(package) then true
    else if Truthy(package.value.billingPeriod) then RecurringHolds(data, package.value.billingPeriod.value)
    else InitialHolds(data, package.value.contents, cart)
  }

  // ---------------------------------------------------------------------------
  // check_condition as the source runs it: flag loops with early exit

  /** Evaluates the condition with the source's loops, which stop as soon as the
      flag the modifier reads is settled; the result is the full-scan reference. */
  method CheckCondition(data: ConditionData, package: Option<Package>, cart: CartState) returns (r: bool)
    ensures r == ConditionHolds(data, package, cart)
  {
    if package.None? || package.value.contents == [] {
      return true;
    }
    var billingPeriod := package.value.billingPeriod;
    if Truthy(billingPeriod) {
      if ModifierIs(data.modifier, ["in", "all-in"]) {
        if billingPeriod.value in data.value {
          return true;
        }
      } else if ModifierIs(data.modifier, ["not-in", "not-all-in"]) {
        if billingPeriod.value !in data.value {
          return true;
        }
      }
      return false;
    }
    var contents := package.value.contents;
    if cart.renewal.Some? {
      var containsRenewals := false;
      var allItemsRenewals := true;
      var matches := LooselyIn(cart.renewal.value.subscriptionPeriod, data.value);
      var i := 0;
      while i < |contents|
        invariant 0 <= i <= |contents|
        invariant containsRenewals == exists k :: 0 <= k < i && MatchingRenewal(contents[k], matches)
        invariant allItemsRenewals == forall k :: 0 <= k < i ==> MatchingRenewal(contents[k], matches)
      {
        if contents[i].isRenewal && matches {
          containsRenewals := true;
          if ModifierIs(data.modifier, ["in", "not-in"]) {
            break;
          }
        } else {
          allItemsRenewals := false;
          if ModifierIs(data.modifier, ["all-in", "not-all-in"]) {
            break;
          }
        }
        i := i + 1;
      }
      r := (ModifierIs(data.modifier, ["in"]) && containsRenewals) ||
           (ModifierIs(data.modifier, ["not-in"]) && !containsRenewals) ||
           (ModifierIs(data.modifier, ["all-in"]) && allItemsRenewals) ||
           (ModifierIs(data.modifier, ["not-all-in"]) && !allItemsRenewals);
    } else if cart.containsSubscription {
      var containsSubscription := false;
      var allItemsOnSubscription := true;
      var i := 0;
      while i < |contents|
        invariant 0 <= i <= |contents|
        invariant !containsSubscription && allItemsOnSubscription
        invariant ModifierIs(data.modifier, ["in", "not-in"]) ==>
                    forall k :: 0 <= k < i ==> !MatchingSubscription(contents[k], data.value)
        invariant ModifierIs(data.modifier, ["all-in", "not-all-in"]) ==>
                    forall k :: 0 <= k < i ==> MatchingSubscription(contents[k], data.value)
      {
        var isMatchingSubscription := contents[i].isSubscription && contents[i].period in data.value;
        if isMatchingSubscription {
          if ModifierIs(data.modifier, ["in", "not-in"]) {
            containsSubscription := true;
            break;
          }
        } else {
          if ModifierIs(data.modifier, ["all-in", "not-all-in"]) {
            allItemsOnSubscription := false;
            break;
          }
        }
        i := i + 1;
      }
      r := (ModifierIs(data.modifier, ["in"]) && containsSubscription) ||
           (ModifierIs(data.modifier, ["not-in"]) && !containsSubscription) ||
           (ModifierIs(data.modifier, ["all-in"]) && allItemsOnSubscription) ||
           (ModifierIs(data.modifier, ["not-all-in"]) && !allItemsOnSubscription);
    } else {
      r := ModifierIs(data.modifier, ["not-in", "not-all-in"]);
    }
  }

  // ---------------------------------------------------------------------------
  // Properties of the condition

  /** The `not-` modifiers are exactly the negations of their positive forms on
      any package with contents. */
  lemma NegatedModifiers(data: ConditionData, package: Option<Package>, cart: CartState)
    requires !EmptyPackage(package)
    ensures ConditionHolds(data.(modifier := "not-in"), package, cart) ==
            !ConditionHolds(data.(modifier := "in"), package, cart)
    ensures ConditionHolds(data.(modifier := "not-all-in"), package, cart) ==
            !ConditionHolds(data.(modifier := "all-in"), package, cart)
  {
  }

  /** Every item matching implies some item matching, since the package has
      contents; on a recurring package `in` and `all-in` coincide. */
  lemma AllInImpliesIn(data: ConditionData, package: Option<Package>, cart: CartState)
    requires !EmptyPackage(package)
    ensures ConditionHolds(data.(modifier := "all-in"), package, cart) ==>
            ConditionHolds(data.(modifier := "in"), package, cart)
    ensures Truthy(package.value.billingPeriod) ==>
            ConditionHolds(data.(modifier := "all-in"), package, cart) ==
            ConditionHolds(data.(modifier := "in"), package, cart)
  {
    var contents := package.value.contents;
    assert 0 < |contents|;
    if cart.renewal.Some? {
      var matches := LooselyIn(cart.renewal.value.subscriptionPeriod, data.value);
      if forall k :: 0 <= k < |contents| ==> MatchingRenewal(contents[k], matches) {
        assert MatchingRenewal(contents[0], matches);
      }
    } else if forall k :: 0 <= k < |contents| ==> MatchingSubscription(contents[k], data.value) {
      assert MatchingSubscription(contents[0], data.value);
    }
  }

  /** A modifier other than the four never puts the condition in effect on a
      package with contents. */
  lemma UnrecognisedModifierNeverHolds(data: ConditionData, package: Option<Package>, cart: CartState)
    requires !EmptyPackage(package)
    requires !ModifierIs(data.modifier, ["in", "not-in", "all-in", "not-all-in"])
    ensures !ConditionHolds(data, package, cart)
  {
  }

  /** While a renewal is processed, the billing period of the renewed
      subscription is checked once for the whole package. */
  lemma RenewalRule(data: ConditionData, package: Option<Package>, cart: CartState)
    requires !EmptyPackage(package) && !Truthy(package.value.billingPeriod) && cart.renewal.Some?
    ensures var contents, matches := package.value.contents, LooselyIn(cart.renewal.value.subscriptionPeriod, data.value);
            (ConditionHolds(data.(modifier := "in"), package, cart) <==>
               matches && exists k :: 0 <= k < |contents| && contents[k].isRenewal) &&
            (ConditionHolds(data.(modifier := "all-in"), package, cart) <==>
               matches && forall k :: 0 <= k < |contents| ==> contents[k].isRenewal)
  {
    var contents := package.value.contents;
    assert MatchingRenewal(contents[0], LooselyIn(cart.renewal.value.subscriptionPeriod, data.value)) ==>
           LooselyIn(cart.renewal.value.subscriptionPeriod, data.value);
  }

  /** A renewal whose subscription cannot be found matches no selection of
      proper period tokens, so only the `not-` modifiers can hold. */
  lemma MissingSubscriptionNeverMatches(data: ConditionData, package: Option<Package>, cart: CartState)
    requires !EmptyPackage(package) && !Truthy(package.value.billingPeriod)
    requires cart.renewal == Some(Renewal(None))
    requires forall v :: v in data.value ==> TruthyString(v)
    ensures ConditionHolds(data, package, cart) <==> ModifierIs(data.modifier, ["not-in", "not-all-in"])
  {
    var contents := package.value.contents;
    assert !MatchingRenewal(contents[0], LooselyIn(None, data.value));
  }

  /** With neither a renewal nor a subscription in the cart, only the exclusion
      modifiers hold. */
  lemma NoSubscriptionRule(data: ConditionData, package: Option<Package>, cart: CartState)
    requires !EmptyPackage(package) && !Truthy(package.value.billingPeriod)
    requires cart.renewal.None? && !cart.containsSubscription
    ensures ConditionHolds(data, package, cart) <==> data.modifier == "not-in" || data.modifier == "not-all-in"
  {
  }

  /** The initial-package branch that rejects empty contents is never reached:
      a package with empty contents is decided true by the guard, and every
      package that does reach the initial-package decision has contents. */
  lemma EmptyContentsBranchUnreachable(data: ConditionData, package: Option<Package>, cart: CartState)
    ensures !InitialHolds(data, [], cart)
    ensures package.Some? && package.value.contents == [] ==> ConditionHolds(data, package, cart)
    ensures !EmptyPackage(package) && !Truthy(package.value.billingPeriod) ==>
              package.value.contents != [] &&
              ConditionHolds(data, package, cart) == InitialHolds(data, package.value.contents, cart)
  {
  }

  // ---------------------------------------------------------------------------
  // process_admin_fields

  /** The posted form fields of one condition; a field that was not posted is `None`. */
  datatype PostedCondition = PostedCondition(modifier: Option<string>, value: Option<seq<string>>)

  /** The stored configuration, or the empty array when nothing was stored. */
  datatype ProcessedCondition =
    | NothingStored
    | Stored(conditionId: string, modifier: string, value: seq<string>)

  /** Validates the posted fields: stores the condition only when values were
      posted, with the modifier unslashed and each value cleaned. `stripslashes`
      and `wc_clean` are parameters; a modifier that was not posted reads as "". */
  function ProcessAdminFields(posted: PostedCondition, stripslashes: string -> string,
                              clean: string -> string): (r: ProcessedCondition)
    ensures r.Stored? <==> posted.value.Some?
    ensures r.Stored? ==> r.conditionId == ConditionId && |r.value| == |posted.value.value| &&
                          forall k :: 0 <= k < |r.value| ==> r.value[k] == clean(posted.value.value[k])
    ensures r.Stored? ==> r.modifier == stripslashes(if posted.modifier.Some? then posted.modifier.value else "")
  {
    match posted.value
    case None => NothingStored
    case Some(values) =>
      var modifier := if posted.modifier.Some? then posted.modifier.value else "";
      Stored(ConditionId, stripslashes(modifier), seq(|values|, k requires 0 <= k < |values| => clean(values[k])))
  }

  /** Storing what was stored changes nothing when the sanitisers are idempotent. */
  lemma ProcessAdminFieldsIdempotent(posted: PostedCondition, stripslashes: string -> string, clean: string -> string)
    requires forall s :: stripslashes(stripslashes(s)) == stripslashes(s)
    requires forall s :: clean(clean(s)) == clean(s)
    requires posted.value.Some?
    ensures var r := ProcessAdminFields(posted, stripslashes, clean);
            ProcessAdminFields(PostedCondition(Some(r.modifier), Some(r.value)), stripslashes, clean) == r
  {
    var r := ProcessAdminFields(posted, stripslashes, clean);
    var again := ProcessAdminFields(PostedCondition(Some(r.modifier), Some(r.value)), stripslashes, clean);
    assert again.value == r.value;
  }
}

module RecurringItemResolution {

  import opened Php
  import opened RecurringItemCondition

  /** A one-argument `sprintf` format: the text before and after `%s`. */
  datatype Template = Template(before: string, after: string)

  function Fill(t: Template, arg: string): string
  {
    t.before + arg + t.after
  }

  /** How an initial-package message addresses the shopper: "that your cart"
      when there is a single package, "it" (the package) otherwise. */
  function Opening(single: bool): string
  {
    if single then "make sure that your cart " else "make sure it "
  }

  /** What the message asks of the package, by modifier: the opposite of what
      the modifier restricts. */
  function Phrase(modifier: string): Option<string>
  {
    if modifier == "in" then Some("does not contain any items shipped at ")
    else if modifier == "not-in" then Some("contains items shipped at ")
    else if modifier == "all-in" then Some("does not only contain items shipped at ")
    else if modifier == "not-all-in" then Some("only contains items shipped at ")
    else None
  }

  /** The eight initial-package templates, modifier by package count; each is
      the source's text, written as its opening followed by its phrase. */
  function InitialTemplate(modifier: string, single: bool): Option<Template>
  {
    match Phrase(modifier)
    case Some(phrase) => Some(Template(Opening(single) + phrase, " intervals"))
    case None => None
  }

  lemma FillCancels(t1: Template, t2: Template, arg: string)
    requires t1.after == t2.after && Fill(t1, arg) == Fill(t2, arg)
    ensures t1.before == t2.before
  {
    var m := Fill(t1, arg);
    assert t1.before == m[..|t1.before|];
    assert t2.before == m[..|t2.before|];
  }

  /** Reads back, from the text before the placeholder, which modifier and
      which package count (one package or several) chose the template. */
  function TemplateKey(before: string): (string, bool)
  {
    // The openings differ first just after "make sure ": "that your cart" against "it".
    var single := |before| > |"make sure "| && before[|"make sure "|] == 't';
    // What is left after the opening is the phrase; the four phrases differ in length.
    var phrase := |before| - |Opening(single)|;
    var modifier := if phrase == |Phrase("in").value| then "in"
                    else if phrase == |Phrase("not-in").value| then "not-in"
                    else if phrase == |Phrase("all-in").value| then "all-in"
                    else if phrase == |Phrase("not-all-in").value| then "not-all-in"
                    else "";
    (modifier, single)
  }

  lemma TemplateKeyRecovers(modifier: string, single: bool)
    requires InitialTemplate(modifier, single).Some?
    ensures TemplateKey(InitialTemplate(modifier, single).value.before) == (modifier, single)
  {
  }

  lemma TemplatesDistinct(m1: string, s1: bool, m2: string, s2: bool, arg: string)
    requires InitialTemplate(m1, s1).Some? && InitialTemplate(m2, s2).Some?
    requires Fill(InitialTemplate(m1, s1).value, arg) == Fill(InitialTemplate(m2, s2).value, arg)
    ensures m1 == m2 && s1 == s2
  {
    FillCancels(InitialTemplate(m1, s1).value, InitialTemplate(m2, s2).value, arg);
    TemplateKeyRecovers(m1, s1);
    TemplateKeyRecovers(m2, s2);
  }

  // ---------------------------------------------------------------------------
  // get_billing_period_adverb

  /** The adverb for one billing period token; unknown tokens pass through. */
  function Adverb(period: string): string
  {
    if period == "day" then "daily"
    else if period == "week" then "weekly"
    else if period == "month" then "monthly"
    else if period == "year" then "yearly"
    else period
  }

  /** The known billing period tokens. */
  predicate KnownPeriod(period: string)
  {
    period == "day" || period == "week" || period == "month" || period == "year"
  }

  /** Exactly the known tokens are rewritten, and the adverbs are fixed points,
      so formatting twice changes nothing. */
  lemma AdverbRewritesKnownTokens(period: string)
    ensures Adverb(period) != period <==> KnownPeriod(period)
    ensures Adverb(Adverb(period)) == Adverb(period)
    ensures KnownPeriod(period) ==> !KnownPeriod(Adverb(period))
  {
  }

  /** The adverbs of a list of tokens, element by element. */
  function Adverbs(periods: seq<string>): (r: seq<string>)
    ensures |r| == |periods|
  {
    if periods == [] then [] else [Adverb(periods[0])] + Adverbs(periods[1..])
  }

  lemma {:induction false} AdverbsAt(periods: seq<string>, k: nat)
    requires k < |periods|
    ensures |Adverbs(periods)| == |periods| && Adverbs(periods)[k] == Adverb(periods[k])
  {
    if k > 0 {
      AdverbsAt(periods[1..], k - 1);
    }
  }

  lemma {:induction false} AdverbsAppend(a: seq<string>, b: seq<string>)
    ensures Adverbs(a + b) == Adverbs(a) + Adverbs(b)
  {
    if a == [] {
      assert a + b == b;
    } else {
      assert (a + b)[1..] == a[1..] + b;
      AdverbsAppend(a[1..], b);
    }
  }

  /** The argument of get_billing_period_adverb: an array of tokens or a single string. */
  datatype Periods = List(items: seq<string>) | Single(item: string)

  /** Formats the periods as the source's loop does, appending one adverb per
      token; a single string comes back as a single string. */
  method BillingPeriodAdverb(periods: Periods) returns (r: Periods)
    ensures periods.List? ==> r.List? && |r.items| == |periods.items| &&
                              forall k :: 0 <= k < |r.items| ==> r.items[k] == Adverb(periods.items[k])
    ensures periods.Single? ==> r == Single(Adverb(periods.item))
  {
    var items := if periods.List? then periods.items else [periods.item];
    var formatted: seq<string> := [];
    var i := 0;
    while i < |items|
      invariant 0 <= i <= |items|
      invariant formatted == Adverbs(items[..i])
    {
      var period := items[i];
      assert items[..i + 1] == items[..i] + [period];
      AdverbsAppend(items[..i], [period]);
      if KnownPeriod(period) {
        formatted := formatted + [Adverb(period)];
      } else {
        formatted := formatted + [period];
      }
      i := i + 1;
    }
    assert items[..i] == items;
    forall k | 0 <= k < |items|
      ensures |formatted| == |items| && formatted[k] == Adverb(items[k])
    {
      AdverbsAt(items, k);
    }
    if periods.List? {
      r := List(formatted);
    } else {
      r := Single(formatted[|formatted| - 1]);
    }
  }

  // ---------------------------------------------------------------------------
  // get_condition_resolution

  /** The placeholder for the chosen periods: "recurring" when all four are
      selected, otherwise the adverbs joined by `merge_titles`. */
  function ChosenPeriodsPlaceholder(values: seq<string>, mergeTitles: seq<string> -> string): string
  {
    if |values| == 4 then "recurring" else mergeTitles(Adverbs(values))
  }

  const RecurringResolution := "consider changing its shipping schedule"

  /** The message that explains how to lift the restriction, or `None` (the
      source's `false`) when there is nothing to say. */
  function ConditionResolution(data: ConditionData, package: Option<Package>, packageCount: nat,
                               mergeTitles: seq<string> -> string): Option<string>
  {
    if EmptyPackage(package) then None
    else if Truthy(package.value.billingPeriod) then Some(RecurringResolution)
    else match InitialTemplate(data.modifier, packageCount == 1)
      case Some(t) => Some(Fill(t, ChosenPeriodsPlaceholder(data.value, mergeTitles)))
      case None => None
  }

  // ---------------------------------------------------------------------------
  // Properties of the resolution message

  /** A missing or empty package: the condition is inert and there is no message. */
  lemma EmptyPackageIsInert(data: ConditionData, package: Option<Package>, cart: CartState, packageCount: nat,
                            mergeTitles: seq<string> -> string)
    requires EmptyPackage(package)
    ensures ConditionHolds(data, package, cart)
    ensures ConditionResolution(data, package, packageCount, mergeTitles) == None
  {
  }

  /** A recurring package always gets the schedule message, whatever the modifier. */
  lemma RecurringPackageResolution(data: ConditionData, package: Option<Package>, packageCount: nat,
                                   mergeTitles: seq<string> -> string)
    requires !EmptyPackage(package) && Truthy(package.value.billingPeriod)
    ensures ConditionResolution(data, package, packageCount, mergeTitles) ==
            Some("consider changing its shipping schedule")
  {
  }

  /** The initial package gets a message exactly when the modifier is one of the four. */
  lemma InitialPackageResolution(data: ConditionData, package: Option<Package>, packageCount: nat,
                                 mergeTitles: seq<string> -> string)
    requires !EmptyPackage(package) && !Truthy(package.value.billingPeriod)
    ensures ConditionResolution(data, package, packageCount, mergeTitles).Some? <==>
            ModifierIs(data.modifier, ["in", "not-in", "all-in", "not-all-in"])
  {
  }

  /** An initial-package message opens with "that your cart" for a single
      package and "it" otherwise, and closes with the chosen periods and
      " intervals". */
  lemma InitialMessageShape(data: ConditionData, package: Option<Package>, packageCount: nat,
                            mergeTitles: seq<string> -> string)
    requires !EmptyPackage(package) && !Truthy(package.value.billingPeriod)
    requires ConditionResolution(data, package, packageCount, mergeTitles).Some?
    ensures var message := ConditionResolution(data, package, packageCount, mergeTitles).value;
            var opening := Opening(packageCount == 1);
            var tail := ChosenPeriodsPlaceholder(data.value, mergeTitles) + " intervals";
            |opening| + |tail| <= |message| &&
            message[..|opening|] == opening && message[|message| - |tail|..] == tail
  {
    var message := ConditionResolution(data, package, packageCount, mergeTitles).value;
    var opening := Opening(packageCount == 1);
    var phrase := Phrase(data.modifier).value;
    var tail := ChosenPeriodsPlaceholder(data.value, mergeTitles) + " intervals";
    assert message == opening + phrase + tail;
    assert message == opening + (phrase + tail);
  }

  /** Different modifiers, or a single package against several, never give the
      same initial-package message. */
  lemma ResolutionIdentifiesCase(data1: ConditionData, data2: ConditionData, package: Option<Package>,
                                 count1: nat, count2: nat, mergeTitles: seq<string> -> string)
    requires !EmptyPackage(package) && !Truthy(package.value.billingPeriod) && data1.value == data2.value
    requires ConditionResolution(data1, package, count1, mergeTitles).Some?
    requires ConditionResolution(data1, package, count1, mergeTitles) ==
             ConditionResolution(data2, package, count2, mergeTitles)
    ensures data1.modifier == data2.modifier && (count1 == 1 <==> count2 == 1)
  {
    TemplatesDistinct(data1.modifier, count1 == 1, data2.modifier, count2 == 1,
                      ChosenPeriodsPlaceholder(data1.value, mergeTitles));
  }

  /** The placeholder names all selected periods at once when four are chosen,
      otherwise it joins one adverb per chosen token, in order. */
  lemma PlaceholderChoice(values: seq<string>, mergeTitles: seq<string> -> string)
    ensures |values| == 4 ==> ChosenPeriodsPlaceholder(values, mergeTitles) == "recurring"
    ensures |values| != 4 ==>
              (exists adverbs :: ChosenPeriodsPlaceholder(values, mergeTitles) == mergeTitles(adverbs) &&
                                 |adverbs| == |values| &&
                                 forall k :: 0 <= k < |values| ==> adverbs[k] == Adverb(values[k]))
  {
    if |values| != 4 {
      var adverbs := Adverbs(values);
      forall k | 0 <= k < |values|
        ensures adverbs[k] == Adverb(values[k])
      {
        AdverbsAt(values, k);
      }
    }
  }
}
