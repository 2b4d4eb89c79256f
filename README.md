# Product on Subscription condition and class autoloader, modelled in Dafny

This project models two parts of the Innozilla Conditional Shipping and
Payments plugin for WooCommerce:

- the "Product on Subscription" condition (`WC_CSP_Condition_Package_Recurring_Item`),
  which decides whether a shipping restriction applies to a package from a
  modifier (`in`, `not-in`, `all-in`, `not-all-in`) and a set of selected
  billing periods, explains how the shopper can lift the restriction, formats
  billing periods as adverbs and validates the posted admin fields;
- the plugin's class autoloader (`WC_CSP_Autoloader`), which turns a class
  name into a file name and tries a subdirectory and then the includes root.

Files:

- `php.dfy` (module `Php`): PHP runtime behaviour the code relies on: optional
  values, truthiness of strings, `in_array` with loose comparison, `strpos(...) === 0`.
- `recurring_item_condition.dfy`: module `RecurringItemCondition`
  (`check_condition` as a method with the source's flag loops and early
  `break`, proved equal to a full-scan reference `ConditionHolds` built from
  "some item matches" and "every item matches"; `process_admin_fields`) and
  module `RecurringItemResolution` (`get_condition_resolution`,
  `get_billing_period_adverb`).
- `autoloader.dfy` (module `Autoloader`): the file-name conversion, the paths
  tried (`AttemptedPaths`) and a class `ClassAutoloader` whose `Autoload` and
  `LoadFile` methods record the paths offered to `load_file` and the files
  included.

Host-platform answers are plain inputs: whether a renewal is in the cart and
the renewed subscription's billing period (`None` when the subscription is not
found), each item's `subscription_renewal` mark, whether its product is a
subscription and its period, whether the cart contains a subscription, the
package's `billing_period` extra variable and the package count. The
readability check of the filesystem is a function parameter `readable`;
`merge_titles`, `stripslashes` and `wc_clean` are function parameters too, so
nothing is assumed about them. Translation calls are the identity.

`check_condition` returns true for a missing or empty package
(class-wc-csp-condition-package-recurring-item.php:105-107), so its
`return false` for empty contents of an initial package (lines 132-134) is
never reached (`EmptyContentsBranchUnreachable`).

PHP details modelled explicitly: a `billing_period` of `""` or `"0"` is falsy,
so such a package is treated as an initial package; `in_array(false, ...)` for a
renewal whose subscription is missing is true when a selected value is `""` or
`"0"` (loose comparison), which never happens for proper period tokens
(`MissingSubscriptionNeverMatches`); `strtolower` lowers ASCII letters only.

## Model

| member | source | states |
|---|---|---|
| `RecurringItemCondition.CheckCondition` | includes/conditions/class-wc-csp-condition-package-recurring-item.php:103-226 | The loops that stop early once the flag the modifier reads is settled return exactly the full-scan reference: true for an empty package; for a recurring package, membership (or not) of its period; for a renewal or subscription cart, "some item matches" / "every item matches" under the modifier; otherwise true only for `not-in`/`not-all-in`. |
| `RecurringItemCondition.NegatedModifiers` | includes/conditions/class-wc-csp-condition-package-recurring-item.php:112-222 | On any package with contents, `not-in` holds exactly when `in` does not, and `not-all-in` exactly when `all-in` does not. |
| `RecurringItemCondition.AllInImpliesIn` | includes/conditions/class-wc-csp-condition-package-recurring-item.php:112-218 | On a package with contents, `all-in` implies `in`; on a recurring package the two coincide. |
| `RecurringItemCondition.UnrecognisedModifierNeverHolds` | includes/conditions/class-wc-csp-condition-package-recurring-item.php:112-225 | A modifier other than the four never puts the condition in effect on a package with contents. |
| `RecurringItemCondition.RenewalRule` | includes/conditions/class-wc-csp-condition-package-recurring-item.php:140-181 | With a renewal in the cart, `in` holds iff the subscription's period is selected and some item carries `subscription_renewal`; `all-in` iff the period is selected and every item carries it. |
| `RecurringItemCondition.MissingSubscriptionNeverMatches` | includes/conditions/class-wc-csp-condition-package-recurring-item.php:146-150 | When the renewed subscription cannot be found and every selected value is a truthy token, only `not-in`/`not-all-in` hold. |
| `RecurringItemCondition.NoSubscriptionRule` | includes/conditions/class-wc-csp-condition-package-recurring-item.php:220-222 | With neither a renewal nor a subscription in the cart, the condition holds exactly for `not-in` and `not-all-in`. |
| `RecurringItemCondition.EmptyContentsBranchUnreachable` | includes/conditions/class-wc-csp-condition-package-recurring-item.php:105-134 | The initial-package branch would reject empty contents, but a package with empty contents is already decided true by the guard, and every package that reaches the initial-package decision has contents. |
| `RecurringItemCondition.ProcessAdminFields` | includes/conditions/class-wc-csp-condition-package-recurring-item.php:234-245 | A configuration is stored iff values were posted; it carries the condition id, the unslashed modifier and each posted value cleaned, in order. |
| `RecurringItemCondition.ProcessAdminFieldsIdempotent` | includes/conditions/class-wc-csp-condition-package-recurring-item.php:234-245 | Re-processing a stored configuration gives it back when the sanitisers are idempotent. |
| `RecurringItemResolution.AdverbRewritesKnownTokens` | includes/conditions/class-wc-csp-condition-package-recurring-item.php:266-281 | A token is changed exactly when it is day, week, month or year; adverbs are fixed points, so formatting is idempotent. |
| `RecurringItemResolution.Adverbs` | includes/conditions/class-wc-csp-condition-package-recurring-item.php:273-281 | Formatting a list of tokens preserves its length. |
| `RecurringItemResolution.AdverbsAt` | includes/conditions/class-wc-csp-condition-package-recurring-item.php:275-281 | The k-th formatted entry is the adverb of the k-th token (order preserved). |
| `RecurringItemResolution.AdverbsAppend` | includes/conditions/class-wc-csp-condition-package-recurring-item.php:275-281 | Formatting distributes over concatenation, one appended adverb per token. |
| `RecurringItemResolution.BillingPeriodAdverb` | includes/conditions/class-wc-csp-condition-package-recurring-item.php:255-284 | The loop returns a list of the same length with each token's adverb in place; a single string comes back as the single adverb. |
| `RecurringItemResolution.EmptyPackageIsInert` | includes/conditions/class-wc-csp-condition-package-recurring-item.php:39-43 | For a missing or empty package `ConditionHolds` is true and `ConditionResolution` gives no message. |
| `RecurringItemResolution.RecurringPackageResolution` | includes/conditions/class-wc-csp-condition-package-recurring-item.php:88-91 | `ConditionResolution` gives a recurring package "consider changing its shipping schedule", whatever the modifier. |
| `RecurringItemResolution.InitialPackageResolution` | includes/conditions/class-wc-csp-condition-package-recurring-item.php:52-87 | `ConditionResolution` gives an initial package a message iff the modifier is one of the four. |
| `RecurringItemResolution.InitialMessageShape` | includes/conditions/class-wc-csp-condition-package-recurring-item.php:55-86 | An initial-package message of `ConditionResolution` opens with "make sure that your cart " when the package count is 1 and "make sure it " otherwise, and ends with the placeholder and " intervals". |
| `RecurringItemResolution.ResolutionIdentifiesCase` | includes/conditions/class-wc-csp-condition-package-recurring-item.php:55-86 | The eight initial-package messages of `ConditionResolution` are pairwise different: the message determines the modifier and whether the package count is 1. |
| `RecurringItemResolution.PlaceholderChoice` | includes/conditions/class-wc-csp-condition-package-recurring-item.php:47 | Four selected values give "recurring"; otherwise the placeholder is `merge_titles` of one adverb per selected value, in order. |
| `Autoloader.ReplaceChar` | includes/ICSAPW-class-wc-csp-autoloader.php:41 | Replacing a character keeps the length and leaves no occurrence of the replaced character. |
| `Autoloader.FileNameFromClass` | includes/ICSAPW-class-wc-csp-autoloader.php:40-42 | The file name starts with "class-", ends with ".php", has no `_`, and is 10 characters longer than the class name. |
| `Autoloader.FileNameRoundTrip` | includes/ICSAPW-class-wc-csp-autoloader.php:40-42 | For any class name without `-`, the class name is recovered from its file name. |
| `Autoloader.ClassAutoloader.constructor` | includes/ICSAPW-class-wc-csp-autoloader.php:27-32 | The includes path is the plugin path followed by "/includes/"; nothing tried or included yet. |
| `Autoloader.ClassAutoloader.LoadFile` | includes/ICSAPW-class-wc-csp-autoloader.php:50-56 | Succeeds exactly for a truthy (not "" or "0") readable path, which is then included; otherwise nothing is included. The path is logged either way. |
| `Autoloader.ClassAutoloader.Autoload` | includes/ICSAPW-class-wc-csp-autoloader.php:63-83 | Logs exactly the paths of `AttemptedPaths`, in order, and includes exactly the loadable ones among them. |
| `Autoloader.NonPluginClassIgnored` | includes/ICSAPW-class-wc-csp-autoloader.php:64-68 | A class whose lower-cased name does not start with `wc_csp` gets no attempt in `AttemptedPaths`. |
| `Autoloader.SubdirectoryChoice` | includes/ICSAPW-class-wc-csp-autoloader.php:70-78 | In `AttemptedPaths`, condition classes are tried first under `conditions/`, restriction classes under `restrictions/`, other plugin classes only at the includes root. |
| `Autoloader.FallbackOrder` | includes/ICSAPW-class-wc-csp-autoloader.php:80-82 | `AttemptedPaths` holds at most two attempts; every attempt before the last fails; the last is the includes root unless the subdirectory attempt succeeded. |
| `Autoloader.AtMostOneFileLoaded` | includes/ICSAPW-class-wc-csp-autoloader.php:74-82 | One call includes at most one class file. |
| `Autoloader.CaseInsensitive` | includes/ICSAPW-class-wc-csp-autoloader.php:64 | Class names that differ only in letter case produce the same `AttemptedPaths`. |

## Left out

- `includes/ICSAPW-updates-pro.php` (the update-check HTTP client) is not part of this model: it is network I/O around foreign calls.
- `get_admin_fields_html`: HTML rendering only.
- The condition's constructor: its id is the constant `ConditionId`; the translated title and the list of supported global restrictions are not used by the modelled logic.
- WooCommerce Subscriptions calls (`wcs_cart_contains_renewal`, `wcs_get_subscription`, `get_billing_period`, `cart_contains_subscription`, `is_subscription`, `get_period`) and `get_package_count`, `get_extra_package_variable`: inputs, not behaviour; the `(int)` cast of the subscription id happens inside the lookup that is an input.
- `merge_titles`, `stripslashes`, `wc_clean`: uninterpreted function parameters; `wc_clean` on nested arrays is not modelled (the posted values are strings).
- `in_array` compares two strings by equality; PHP's loose comparison of two numeric strings (`"1" == "01"`) is not modelled, since the selected values are period tokens.
- `RecurringItemCondition.CheckCondition` omits the unreachable `return false` for empty contents of an initial package; the reference `InitialHolds` keeps it and `EmptyContentsBranchUnreachable` shows it is never reached.
- `spl_autoload_register` and the execution of included files: the autoloader only records which files would be included.
- `strtolower` before PHP 8.2 depended on the locale; only ASCII letters are lowered here.
