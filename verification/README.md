# BookIDs business rules in Dafny

This project models the business logic of BookIDs, a Django web app (the
`hyper-django-kit` starter). The app sells shop products through a basket and a
hosted checkout, sells subscriptions with plan-dependent features, and
publishes a blog. The model covers the parts that decide things:

- the shop's basket, checkout and order store, and the projections of an order;
- the subscription state kept on a user, and the webhook handlers that change it;
- plan selection for the pricing pages, and the guard chains of the subscription views;
- age-group classification and the name and profile-image validators;
- the blog's slug, preview-token, publish and validation rules, and `reading_time`;
- the small dashboard projections: sidebar state, email removal and resend, the
  order page, and the subscription pages.

Every table is an immutable value. Baskets, items, orders, users, email
addresses and subscriptions are sequences ordered as the app reads them, newest
first. Fresh primary keys come from a counter in the store.

Each view or service is a pure function or method. It takes the state and the
replies of every external call as inputs, and returns the new state together
with an outcome. The outcome names the branch the code took: a redirect, an
error message, or an uncaught exception, which the model records as a crash.

The payment provider (Stripe, through dj-stripe) never runs in the model. Its
checkout sessions, subscriptions, customers and the success or failure of each
call are input records. Library functions the app calls but does not define are
function-typed parameters: `slugify`, `strip_tags`, NFKC normalisation, the
Unicode character classes, and the shop-metadata lookup.

Modules, one per source component:

| file | module | source |
|---|---|---|
| `wrappers.dfy` | `Wrappers` | `Option`, `Result`, Python truthiness of strings |
| `seqs.dfy` | `Seqs` | filtering, newest-first selection, the `get` of a single row |
| `age_group.dfy` | `AgeGroups` | `src/apps/core/models.py` |
| `validators.dfy` | `Validators` | `src/apps/core/validators.py` |
| `shop_store.dfy` | `ShopStore` | `src/apps/shop/models.py`: baskets, items, orders, totals |
| `gateway.dfy` | `Gateway` | the checkout-session request both checkouts send |
| `shop_views.dfy` | `ShopViews` | `src/apps/shop/views.py` |
| `shop_orders.dfy` | `OrderProjections` | `src/apps/shop/models.py`: `Order` properties |
| `billing.dfy` | `Billing` | `src/apps/subscriptions/metadata.py`, `src/apps/subscriptions/apps.py` |
| `accounts.dfy` | `Accounts` | `src/apps/accounts/models.py` |
| `signals.dfy` | `SubscriptionSignals` | `src/apps/subscriptions/signals.py` |
| `pricing_plans.dfy` | `PricingPlans` | `src/apps/landing/selectors.py`, the `index` view |
| `subscription_views.dfy` | `SubscriptionViews` | `src/apps/subscriptions/views.py` |
| `blog_slugs.dfy` | `BlogSlugs` | `_generate_unique_slug` in `src/apps/blogs/services.py` |
| `blogs.dfy` | `Blogs` | `src/apps/blogs/services.py`, `src/apps/blogs/models.py` |
| `reading_time.dfy` | `ReadingTime` | `src/apps/blogs/templatetags/markdown_extras.py` |
| `dashboard.dfy` | `Dashboard` | `src/apps/user_dashboard/` |

Where a branch in the code and its documentation disagree, the model follows the code:

- `from_age` maps negative ages to BABY and ages above 150 to SENIOR, even
  though those ages fall outside every documented range.
- The sanitised name is not always trimmed.
- `add_to_basket` checks no lower bound on the quantity.
- An order, once created, keeps its first user and basket.
- `unpublish_blog_post`'s docstring and comment say it regenerates the
  preview token. The code only ensures one, so an existing token is kept.
- `get_user_subscription_context` is documented to return the user's
  subscription, but its query raises, so the landing page never shows one
  (see Findings).

## Model

| member | source | states |
|---|---|---|
| AgeGroups.FromAge | src/apps/core/models.py:75-92 | Defined for every integer. BABY exactly for ages up to 3, SENIOR exactly for ages from 65. The value is always in 1..9. |
| AgeGroups.OfValue | src/apps/core/models.py:30-38 | The enum values are exactly 1..9, and the group found for a value has that value. |
| AgeGroups.AgeRange | src/apps/core/models.py:41-62 | A value that is not an age group gives (0, 150). Every range lies within 0..150. |
| AgeGroups.FromAgeWithinRange | src/apps/core/models.py:51-92 | An age in 0..150 lies inside the range of the group it is classified into. |
| AgeGroups.FromAgeMonotone | src/apps/core/models.py:75-92 | An older age never gets a lower group value. |
| AgeGroups.OutOfRangeAges | src/apps/core/models.py:75-92 | A negative age is BABY and an age above 150 is SENIOR, though each lies outside that group's range. |
| AgeGroups.RangesTile | src/apps/core/models.py:51-61 | The nine ranges start at 0, end at 150, and each starts one past the end of the previous one. |
| AgeGroups.RangeMembershipUnique | src/apps/core/models.py:51-92 | An age inside group v's range is classified as v, so the two class methods agree. |
| Validators.SanitizeName | src/apps/core/validators.py:24-64 | `None` or "" gives "". Apart from whitespace, the result holds exactly the input's visible characters after tag stripping and NFKC, in order: no control character, and nothing else dropped or added. It has no run of two whitespace characters, and no control character provided the space is not one. |
| Validators.CleanNameUnchanged | src/apps/core/validators.py:24-64 | A name that is already clean comes back unchanged. Clean means tag stripping and NFKC leave it alone, it has no control character and no whitespace at either end, and its only whitespace is single spaces. So interior spaces are kept in place, one each, not dropped. |
| Validators.SanitizedNameNotAlwaysTrimmed | src/apps/core/validators.py:56-62 | A NUL followed by " Jo" sanitises to " Jo". The strip runs before control characters are removed, so the leading space survives. |
| Validators.ValidateName | src/apps/core/validators.py:67-132 | Each error holds exactly when its own check fails and every earlier check passes: required, then digits, then too short, then too long. On success the sanitised name is returned. |
| Validators.AcceptedNameIsClean | src/apps/core/validators.py:67-132 | An accepted name has no digit, no control character and no whitespace run. It is empty or within the length bounds. |
| Validators.ValidateProfileImage | src/apps/core/validators.py:135-171 | Too large exactly when size > 8 MiB. Wrong type exactly when the size passes and a content type is present but is not jpeg, png, webp or gif. Otherwise the upload is accepted unchanged. |
| Validators.EightMebibytesBoundary | src/apps/core/validators.py:156-163 | Exactly 8 MiB is accepted and one byte more is rejected. |
| ShopViews.AddRaisesTotalAmount | src/apps/shop/models.py:189-248 | A successful add raises the target basket's `total_amount` by the product's unit amount times the added quantity, and leaves every other basket's total unchanged. The line totals and the basket total change alike. |
| ShopViews.LineTotalGrows | src/apps/shop/models.py:244-248 | Raising an item's quantity by q raises its `line_total` by the unit amount times q. |
| ShopStore.TotalAmount | src/apps/shop/models.py:189-196 | The loop's total is the sum of the line totals. It is 0 when no item has a default price. |
| ShopStore.AtMostOneActiveBasket | src/apps/shop/models.py:164-167 | In a valid store, a user has at most one basket that is not checked out. |
| ShopViews.AddToBasket | src/apps/shop/views.py:172-226 | A malformed quantity crashes with no change. A missing price or product id changes nothing. With both ids, a well-formed quantity and at most one open basket, the add succeeds exactly when the product exists, and reports an unknown product exactly when it does not. An unknown product adds no item, and opens a new empty basket exactly when the user had none. A successful add puts the product into the user's single open basket. |
| ShopViews.PutProduct | src/apps/shop/views.py:203-213 | The outcome is "new" exactly when the basket had no row for the product. Baskets and orders are untouched. |
| ShopViews.AddEffect | src/apps/shop/views.py:203-213 | After a successful add, an existing row's quantity grows by the requested amount. A new row holds exactly the requested amount. No other row changes. No lower bound is checked. |
| ShopViews.AddPreservesValid | src/apps/shop/models.py:227-228 | Adding keeps the store valid. In particular, a basket keeps at most one row per product. |
| ShopViews.UpdateBasketItem | src/apps/shop/views.py:244-271 | Each outcome holds exactly under its own condition. A malformed quantity crashes. A quantity below 1 is rejected before any lookup. A valid quantity reports "not found" exactly when no item with the id lies in an open basket of the caller, and the store is then unchanged. Otherwise that item gets exactly the new quantity. |
| ShopViews.OwnedOpenItem | src/apps/shop/views.py:256-258 | The item found has the id and lies in an open basket of the caller. Nothing is found exactly when no such item exists. |
| ShopViews.UpdateEffect | src/apps/shop/views.py:244-271 | An update keeps the store valid. The basket's `total_items` moves by the quantity difference. Other baskets' items are unchanged. |
| ShopViews.RemoveBasketItem | src/apps/shop/views.py:274-292 | The store is unchanged exactly when the id is not the caller's own item in an open basket. Otherwise exactly that row is deleted. |
| ShopViews.RemoveEffect | src/apps/shop/views.py:274-292 | A removal keeps the store valid. No row with the id remains. `total_items` drops by the row's quantity. Other baskets are unchanged. |
| ShopViews.CheckoutLineItems | src/apps/shop/views.py:325-330 | Empty exactly when no item has a default price. Never longer than the items. |
| ShopViews.LineItemsArePricedItems | src/apps/shop/views.py:325-330 | The line items correspond one to one, in order, with the items that have a default price: the k-th line carries the k-th priced item's price id and quantity. |
| ShopViews.PricedItemsAll | src/apps/shop/views.py:325-330 | No item is dropped from the priced items exactly when every item has a default price. |
| ShopViews.LineItemsAppend | src/apps/shop/views.py:325-330 | The line items of two item lists, in sequence, are the line items of each, in the same order. |
| ShopViews.CreateCheckoutSession | src/apps/shop/views.py:298-365 | Each outcome holds exactly under its own condition: no open basket; an empty basket; no priced items; several open baskets, no customer, or a raising session call; or a redirect. A redirect needs a non-empty basket with priced items and a created session. The request is then a payment for the customer, for those line items, referencing the user and carrying the basket's metadata. |
| ShopViews.OrderConfirm | src/apps/shop/views.py:368-443 | A missing session id, or a session referencing another user, changes nothing. For the caller's session, confirmation happens exactly when the basket reference is well formed. The error outcome holds exactly when retrieval raises or the caller's session has a malformed basket reference. Only a confirmation writes, and items are never touched. A newly created order belongs to the caller, and its basket is the one the metadata names when the caller owns it, else none. |
| ShopViews.ConfirmEffect | src/apps/shop/views.py:402-424 | The order is keyed only by session. An existing order is returned as it was. A new one is prepended with the caller as its user. A new order's basket is the basket the session's metadata names when the caller owns it, and none otherwise. The referenced basket of the caller is checked out whether or not the order was new. |
| ShopViews.ConfirmIdempotent | src/apps/shop/views.py:402-424 | Confirming the same session again changes nothing and reports the same order, not newly created. |
| ShopViews.ConfirmPreservesValid | src/apps/shop/views.py:402-424 | Confirmation keeps the store valid: one order per session, and unique keys. |
| OrderProjections.Currency | src/apps/shop/models.py:302-305 | `None` exactly without a session. Otherwise the session currency upper-cased, character by character. |
| OrderProjections.UpperIdempotent | src/apps/shop/models.py:302-305 | Upper-casing twice is upper-casing once, and a code without lower-case letters is shown unchanged. |
| OrderProjections.UpperSameExactly | src/apps/shop/models.py:302-305 | Two codes are shown alike exactly when they differ at most in the case of their letters. |
| OrderProjections.StatusOfRaw | src/apps/shop/models.py:322-329 | A non-empty raw status is never mapped to `unknown`. |
| OrderProjections.Status | src/apps/shop/models.py:307-329 | `unknown` exactly when the session, the payment intent or the raw status is missing or empty. Otherwise the status is the table's mapping of the raw status. |
| OrderProjections.StatusTableRoundTrip | src/apps/shop/models.py:322-329 | The five listed raw statuses map to five distinct labels and back. Every other raw status is `pending`. |
| OrderProjections.OrderLinesFollowBasket | src/apps/shop/models.py:331-356 | For an order whose session caches the checkout of its basket, `line_items` lists the basket's priced items in order with their price ids and quantities, and `products_count` counts them. That count is at most the length of `products`, and equal exactly when every item has a default price. |
| OrderProjections.Products | src/apps/shop/models.py:348-356 | `[]` without a basket. Otherwise one product per basket item, in item order. |
| OrderProjections.FirstProduct | src/apps/shop/models.py:358-365 | `None` exactly when `products` is empty, otherwise its first element. |
| OrderProjections.ProductsComeFromBasket | src/apps/shop/models.py:348-356 | Every listed product belongs to an item of the order's basket. |
| OrderProjections.Receipt | src/apps/shop/models.py:377-401 | `None` exactly without a session, a payment intent or charges. Otherwise a charge created no earlier than any other. |
| Billing.SubscriptionMetadata | src/apps/subscriptions/apps.py:49-66 | An entry exactly for the three plan product ids. The entry is one of the three plans, carrying that id. |
| Billing.MetadataMapKeys | src/apps/subscriptions/metadata.py:53-58 | Every map key equals its plan's product id. The keys are exactly the three plans. An unknown id has no entry. |
| Billing.PlanOrdering | src/apps/subscriptions/metadata.py:19-51 | Starter < Standard < Premium by order. Only Standard is marked popular. |
| Billing.FeaturesNested | src/apps/subscriptions/metadata.py:19-51 | The Starter features are contained in Standard's, and Standard's in Premium's. Each containment is strict. |
| Billing.SubscriptionPlanRoundTrip | src/apps/subscriptions/apps.py:26-71 | For each of the three plans, a subscription's plan is that plan exactly when its first item's price belongs to that plan's product. Any plan found is one of the three. |
| Billing.SubscriptionPlan | src/apps/subscriptions/apps.py:49-66 | A plan exactly when the subscription has a product listed in the map. The plan carries that product's id. |
| Accounts.ActiveSubscription | src/apps/accounts/models.py:32-57 | `None` without a customer, or when no subscription of the customer is active or trialing. Otherwise such a subscription, created no earlier than any other. |
| Accounts.SubscriptionStatus | src/apps/accounts/models.py:59-81 | Absent exactly without a customer or without a live subscription of that customer. Otherwise `active` or `trialing`: the status of the customer's newest live subscription. |
| Accounts.StatusIsLiveOrAbsent | src/apps/accounts/models.py:59-81 | The status is always `None`, `active` or `trialing`. |
| Accounts.ActivePlan | src/apps/accounts/models.py:106-120 | Present exactly when there is an active subscription whose product is in the metadata map. It is then one of the three plans and carries that product's id. |
| Accounts.SubscriptionFeatures | src/apps/accounts/models.py:106-120 | Non-empty exactly when there is an active plan, and then that plan's features. |
| Accounts.HasFeature | src/apps/accounts/models.py:83-104 | True exactly when the feature is in the feature list. |
| Accounts.FeatureImpliesPlan | src/apps/accounts/models.py:83-120 | Any feature implies a plan. Ludicrous mode implies Premium. Priority support implies Standard or Premium. |
| Accounts.EveryPlanGrantsWidgets | src/apps/accounts/models.py:83-120 | Every plan grants unlimited widgets. |
| SubscriptionSignals.SyncUserSubscription | src/apps/subscriptions/signals.py:15-95 | A missing object or id, an unknown subscription, or no unique user changes nobody. A change touches only the customer's user. It sets the subscription when the status is live. It clears it only when ended and currently equal. Ids and customers never change. |
| SubscriptionSignals.SyncByStatus | src/apps/subscriptions/signals.py:74-89 | For each status class, exactly which user record results. Any status other than the live and ended ones changes nothing. |
| SubscriptionSignals.SyncIdempotent | src/apps/subscriptions/signals.py:15-95 | Handling the same event twice gives the state handling it once gives. |
| SubscriptionSignals.ClearUserSubscription | src/apps/subscriptions/signals.py:98-137 | Only the single user holding the subscription is changed, and only its subscription becomes `None`. Otherwise nothing changes. |
| SubscriptionSignals.ClearLeavesNoHolder | src/apps/subscriptions/signals.py:121-132 | After clearing, no user holds the subscription. |
| SubscriptionSignals.ClearIdempotent | src/apps/subscriptions/signals.py:98-137 | Clearing twice equals clearing once. |
| SubscriptionSignals.LinkCustomerToUser | src/apps/subscriptions/signals.py:140-200 | For the subscriber of a known customer, found as a single user, the result is exactly the user list with that user's customer set. No other case changes anything. Subscriptions and ids never change. |
| SubscriptionSignals.LinkIdempotent | src/apps/subscriptions/signals.py:189-195 | A second identical event is a no-op. |
| PricingPlans.PriceInterval | src/apps/landing/selectors.py:42-44 | No interval for a price without recurring data. Otherwise the recurring data's interval. |
| PricingPlans.GatherMembers | src/apps/landing/selectors.py:30-55 | A plan is collected for a period exactly when some product offers it for that period. |
| PricingPlans.SortByOrder | src/apps/landing/selectors.py:58-59 | The result is a permutation of the input, sorted non-decreasing by order. |
| PricingPlans.SortIsStable | src/apps/landing/selectors.py:58-59 | Plans with equal order keep their relative order. |
| PricingPlans.GetPricingPlans | src/apps/landing/selectors.py:11-64 | Each list is sorted by order and is a permutation of the collected plans. A plan is listed exactly when an active product with metadata offers it, through an active price of that interval. |
| PricingPlans.PlansPartition | src/apps/landing/selectors.py:30-55 | A listed plan has the period's interval and an active price. Its order is its metadata's order, and its metadata is one of the three plans. It comes from an active product and is absent from the other list. |
| PricingPlans.PlansStable | src/apps/landing/selectors.py:58-59 | Within each list, plans of equal order appear in collection order. |
| PricingPlans.IntendedSelectorContext | src/apps/landing/selectors.py:67-99 | Both values are `None` for an anonymous user or one without a customer. A subscription is the user's, active or trialing, and the product id is its product. |
| PricingPlans.SelectorContext | src/apps/landing/selectors.py:80-91 | As written: raises exactly for a signed-in user with a customer, and otherwise gives no subscription. |
| PricingPlans.PageContext | src/apps/subscriptions/views.py:66-73 | Nothing for an anonymous visitor. Otherwise the user's `active_subscription`. The product id is present exactly when that subscription has a product. |
| PricingPlans.ContextsAgree | src/apps/subscriptions/views.py:66-73 | The subscriptions page's inline context equals the context the selector's query intends. |
| PricingPlans.SubscriptionsIndex | src/apps/subscriptions/views.py:17-82 | The subscriptions page shows the plans of `get_pricing_plans` and, for a signed-in user, their `active_subscription`. |
| PricingPlans.LandingIndex | src/apps/landing/views.py:11-40 | As written: the selected plans, and never a subscription, because the selector raises for every customer and the page falls back to `None`. |
| PricingPlans.LandingIndexHidesSubscription | src/apps/landing/views.py:26-33 | A customer with an active Starter subscription sees it on the subscriptions page but not on the landing page. |
| PricingPlans.CorrectedLandingIndex | src/apps/landing/views.py:11-40 | With the intended query, the landing page shows a signed-in user's `active_subscription`. |
| PricingPlans.CorrectedLandingMatchesSubscriptionsPage | src/apps/landing/views.py:11-40 | With the intended query, the landing page and the subscriptions page render the same plans and context. |
| SubscriptionViews.CreateSubscriptionCheckout | src/apps/subscriptions/views.py:85-152 | Billing portal exactly when the user has an active subscription. Back to the plans exactly when there is none and the price id is missing or a provider call raises. Otherwise one line item for the price, quantity 1, mode subscription, referencing the user. |
| SubscriptionViews.SubscriptionConfirm | src/apps/subscriptions/views.py:155-220 | Every guard failure changes no user. Success happens exactly when the session references the requesting user, who exists, and the sync succeeds. It then sets only that user's subscription and customer, from the synced subscription. |
| SubscriptionViews.ConfirmIdempotent | src/apps/subscriptions/views.py:155-220 | Reloading the confirmation with the same replies changes nothing more. |
| SubscriptionViews.ConfirmedUserGoesToPortal | src/apps/subscriptions/views.py:188-192 | After a confirmation stores a live subscription, a new checkout sends the user to the billing portal. |
| SubscriptionViews.BillingPortal | src/apps/subscriptions/views.py:247-290 | Back to the plans exactly without a customer. To management exactly when the portal call raises. Otherwise the portal for the user's customer. |
| SubscriptionViews.CheckoutPortalReachable | src/apps/subscriptions/views.py:100-101 | A user the checkout sends to the billing portal is never sent back to the plans by it, and reaches the portal for their own customer when the call succeeds. |
| BlogSlugs.GenerateUniqueSlug | src/apps/blogs/services.py:22-47 | The slug is never taken. It is the base slug when that is free, otherwise `base-k` for the least free k ≥ 1. |
| BlogSlugs.FirstFreeSlugUnique | src/apps/blogs/services.py:38-47 | At most one slug satisfies that description, so it fixes the result. |
| BlogSlugs.SuffixedInjective | src/apps/blogs/services.py:44 | Different counters give different candidate slugs. |
| Blogs.CleanBlog | src/apps/blogs/models.py:212-239 | Valid exactly when the slug is not reserved, any author is staff, and the meta title and description fit 60 and 160. The reserved-slug error holds exactly when the slug is reserved, and the author error exactly when the author check is the first to fail. A length error implies that field is too long. |
| Blogs.BlogFieldError | src/apps/blogs/models.py:80-111 | No field error exactly when the title is non-empty and at most 200 characters, the content is non-empty and there is an author. |
| Blogs.FullCleanBlog | src/apps/blogs/models.py:80-239 | Valid exactly when `clean` passes, the covered field checks pass and no other post has the title. `clean`'s error comes first, then the field error. The duplicate-title error holds exactly when only the title's uniqueness fails. |
| Blogs.CleanCategory | src/apps/blogs/models.py:52-66 | Valid exactly when the slug is not reserved. |
| Blogs.CategoryFieldError | src/apps/blogs/models.py:25-30 | No field error exactly when the name is non-empty and at most 100 characters. |
| Blogs.FullCleanCategory | src/apps/blogs/models.py:25-66 | Valid exactly when the slug is not reserved, the name passes its field checks and no other category has the name. The reserved-slug error holds exactly when the slug is reserved, and the duplicate-name error exactly when only the name's uniqueness fails. |
| Blogs.ReservedIgnoresCase | src/apps/blogs/models.py:57 | A slug is reserved exactly when its lower-case form is. |
| Blogs.SameReservedRule | src/apps/blogs/models.py:217 | A blog and a category with the same slug are rejected as reserved alike. |
| Blogs.CleanMetaWithinLimits | src/apps/blogs/models.py:231-247 | For a valid post, the SEO title is within 60 characters or is the fallback to the title, and the SEO description is within 160 or is the fallback to the summary. An explicit meta field always fits. |
| Blogs.EnsurePreviewToken | src/apps/blogs/services.py:50-69 | The result always has a token. An existing token is kept. A missing token is set. |
| Blogs.EnsurePreviewTokenIdempotent | src/apps/blogs/services.py:63-69 | Ensuring twice equals ensuring once. |
| Blogs.RegeneratePreviewToken | src/apps/blogs/services.py:72-94 | Saved exactly when the post passes `full_clean`. It then has the new token and nothing else changed. |
| Blogs.RegeneratedTokenSticks | src/apps/blogs/services.py:50-94 | A regenerated token replaces any different old one. Ensuring a token, or unpublishing, afterwards keeps the regenerated one. |
| Blogs.NewPostDateAsPublished | src/apps/blogs/services.py:151-156 | A post created published always has a date, the same one publishing gives: the given day, else today. |
| Blogs.SuffixedNotReserved | src/apps/blogs/models.py:16 | A suffixed candidate slug is never reserved. |
| Blogs.FreshSlugReserved | src/apps/blogs/services.py:97-169 | The generated slug is reserved exactly when the base slug is free and reserved. |
| Blogs.CreateBlogPost | src/apps/blogs/services.py:97-169 | Among the modelled checks, fails exactly on a reserved new slug, a non-staff author, an over-long meta field, a blank or over-long title, blank content, or a taken title. The slug error holds exactly when it is the slug, and the duplicate-title error exactly when only the title's uniqueness fails. On success: the first free slug, every given field including the images and canonical URL, and the date rule. A token exactly when unpublished. The categories when non-empty. |
| Blogs.PatchedFieldsCoverChanges | src/apps/blogs/services.py:210-248 | The collected update fields name every column that changed. |
| Blogs.UpdateBlogPost | src/apps/blogs/services.py:172-255 | Fields passed as `None` stay unchanged. The slug is regenerated only when the title differs. `update_fields` starts with `updated_at` and covers every change. Among the modelled checks, the call fails exactly when the updated post fails `clean`, has a blank or over-long title, blank content or no author, or another post has its title. |
| Blogs.PublishBlogPost | src/apps/blogs/services.py:258-283 | Saved exactly when the post passes `full_clean`. Then published, dated with the given date or today, and nothing else changed. |
| Blogs.UnpublishBlogPost | src/apps/blogs/services.py:286-314 | Saved exactly when the post passes `full_clean`. Then unpublished, with the date unchanged and a token guaranteed. An existing token is kept. |
| Blogs.PublishThenUnpublish | src/apps/blogs/services.py:258-314 | Publishing then unpublishing leaves a draft carrying the publication date and the ensured token. |
| Blogs.UnpublishIdempotent | src/apps/blogs/services.py:286-314 | Unpublishing twice gives the post that unpublishing once gives. |
| Blogs.CreateBlogCategory | src/apps/blogs/services.py:317-354 | Among the modelled checks, fails exactly when the new slug is reserved, the name is blank or over 100 characters, or the name is taken. The slug error holds exactly when it is the slug, and the duplicate-name error exactly when only the name's uniqueness fails. Otherwise the name, the description and the first free slug. |
| Blogs.UpdateBlogCategory | src/apps/blogs/services.py:357-398 | Renaming regenerates the slug, and `name` and `slug` are saved exactly then. `description` is saved exactly when given. `updated_at` always comes first. Among the modelled checks, the call fails exactly when the resulting slug is reserved, or the resulting name is blank, over 100 characters or taken. |
| ReadingTime.RoundedMinutes | src/apps/blogs/templatetags/markdown_extras.py:84 | The result is within half a minute of count/200, and a tie goes to the even neighbour. |
| ReadingTime.RoundedMinutesUnique | src/apps/blogs/templatetags/markdown_extras.py:84 | Only one whole number satisfies that rounding rule. |
| ReadingTime.Minutes | src/apps/blogs/templatetags/markdown_extras.py:63-87 | Always at least 1. Exactly 1 for a value that is not a number, or a count of at most 100. Otherwise the half-to-even rounding of count/200. |
| ReadingTime.MinutesExamples | src/apps/blogs/templatetags/markdown_extras.py:80-87 | 500 words take 2 minutes, 300 take 2, 900 take 4. 100 words, 0 words and a non-number take 1. |
| ReadingTime.MinutesMonotone | src/apps/blogs/templatetags/markdown_extras.py:84 | More words never take fewer minutes. |
| Dashboard.SidebarState | src/apps/user_dashboard/context_processors.py:1-38 | Nothing exactly for an anonymous request. Both flags false without stored state. Otherwise each flag is its stored detail's truthiness. |
| Dashboard.StoreSidebarState | src/apps/user_dashboard/views.py:36-44 | The signals replace the stored sidebar state. Every other session key is kept. |
| Dashboard.SidebarRoundTrip | src/apps/user_dashboard/views.py:36-44 | Flags stored by the sidebar are the flags every later page renders. |
| Dashboard.LookupEmail | src/apps/user_dashboard/views.py:276-277 | Finds the only address with that id owned by the user. No id, or no such address, is "not found". |
| Dashboard.RemoveEmail | src/apps/user_dashboard/views.py:269-300 | Only a removal changes the list. A primary address, or another user's, is never deleted. An owned non-primary address with the id is deleted, and nothing else. |
| Dashboard.RemoveTwice | src/apps/user_dashboard/views.py:285-289 | With unique ids, removing the same address again finds nothing and deletes nothing. |
| Dashboard.ResendVerification | src/apps/user_dashboard/views.py:303-344 | A confirmation is sent only to the user's own unverified address with the id. A verified or missing address gets none. |
| Dashboard.RemoveAndResendAgree | src/apps/user_dashboard/views.py:315-316 | Both views find, miss or crash on the same address. |
| Dashboard.OrderDetail | src/apps/user_dashboard/views.py:464-499 | 404 unless the order with the id is the user's. Otherwise no lines without a basket, or one line per basket item, in order, with its quantity. |
| Dashboard.OrderDetailListsProducts | src/apps/user_dashboard/views.py:484-493 | The page's products are the order's `products`, line by line. |
| Dashboard.SubscriptionManagement | src/apps/user_dashboard/views.py:47-66 | `has_subscription` exactly when there is an active subscription. `plan_name` is "" otherwise, and else the product's name. A crash exactly when the active subscription has no product. |
| Dashboard.ManagementMatchesPlans | src/apps/user_dashboard/views.py:47-66 | The management page names the plan of the product the subscriptions page marks as the user's. |
| Dashboard.SubscriptionPlans | src/apps/user_dashboard/views.py:86-142 | Renders what the subscriptions page renders for the same signed-in user: the same filter, partition and sort, and the user's `active_subscription`. |

## Left out

- Stripe and dj-stripe calls (session create and retrieve, sync, customer
  lookup, billing portal) are inputs: the reply or the raise of each call.
- Concurrency: the `get_or_create` races, the check-then-insert race in slug
  generation, and `transaction.atomic`. Every operation runs sequentially.
- The database's `PositiveIntegerField` check on basket quantities. The views
  never check it, so the model lets quantities be any integer.
- Money formatting in dollars (`*_dollars`, `format_stripe_amount`), because it is floating point.
- ShopViews.ParseQuantity: `int()` also accepts surrounding whitespace and
  signs. The model takes the parsed value as given.
- Query construction, `prefetch_related`, pagination (`product_list`,
  `orders_list`, `get_paginated_blogs`) and the blog selectors. They shape
  queries, not results. The exception is the `select_related("product")` in
  `get_user_subscription_context`, which raises; the model keeps it (see
  Findings).
- Rendering, redirects, messages, Datastar events, templates and allauth forms
  (profile, password, sessions, add email), and `subscription_invoices` and
  `account_profile_delete_image`.
- `Order.customer` and `Order.payment_intent`: plain attribute access with no logic of their own.
- Markdown, bleach, image processing, file cleanup and upload paths.
  `strip_tags`, NFKC, `slugify` and the Unicode classes are parameters.
- `src/apps/subscriptions/features.py` is not part of this model. Features are
  the three values the metadata names.
- Blogs.IsReserved: lower-cases ASCII letters only. For the two reserved words
  this matches Python's `str.lower`: the Kelvin sign, the only other character
  that lowers to an ASCII letter, lowers to `k`, which neither word contains.
- Blogs.CleanBlog: only the model's `clean()` rules. Blogs.FullCleanBlog and
  Blogs.FullCleanCategory add the unique title and name and these field checks:
  a required title of at most 200 characters, required content, an author, and
  a required category name of at most 100 characters. The meta fields' own
  maximum lengths coincide with `clean`'s. The service contracts therefore say
  "fails exactly" only among these checks.
- Blogs.FullCleanBlog: these `full_clean` checks are not modelled, so a post
  or category the model accepts can still be rejected. `canonical_url`'s URL
  format (`URLField`) and the image extensions of `featured_image` and
  `og_image` (`FileExtensionValidator`) are out, because the uploads are files
  the model does not carry. The slug's format and 200- or 100-character limit
  (`SlugField`) are out, because the slug comes from the `slugify` parameter.
  The unique checks on slugs and preview tokens are out too: a generated slug
  is free by construction, a kept slug is the row's own, and a preview token
  is a fresh UUID.
- Blogs.FullCleanCategory and Blogs.FullCleanBlog: Django reports every
  failing check together. The model reports one error: `clean`'s first, then
  the field checks, then uniqueness. Each service aborts the same way on any
  of them.
- ShopStore.LineTotal: `Price.unit_amount` is nullable. A default price without
  a unit amount makes `line_total` and `total_amount` raise `TypeError`. The
  model's unit amounts are natural numbers, so that crash is not modelled.
- OrderProjections.Currency: upper-cases ASCII letters only. Python's
  `str.upper` also maps other letters, and can lengthen a string. Provider
  currency codes are three ASCII letters.
- ReadingTime.Minutes: uses exact rational rounding. Python divides in floating
  point, which agrees for counts below 2^53. Larger counts and non-integral
  inputs to `int()` are not modelled.
- Dashboard.SidebarState: JSON numbers are integers. A float flag is not modelled.
- Dashboard.OrderDetail: leaves out `line_total_dollars` (floating point). The
  shop metadata of a product is a parameter.
- Dashboard.LookupEmail: an id the integer key rejects is a crash. Several
  matching rows cannot occur with unique keys, but would also crash.

## Findings

| source | as written | input that shows it | evidently intended | confidence | as-written member | corrected member |
|---|---|---|---|---|---|---|
| src/apps/landing/selectors.py:85-91 | `select_related("product")` names a property, not a relation, so evaluating the query raises `FieldError`. The landing page catches it and shows no subscription. | a signed-in user whose customer has an active subscription | the customer's newest active or trialing subscription and its product, as `active_subscription` gives | not executed | PricingPlans.SelectorContext, PricingPlans.LandingIndex, PricingPlans.LandingIndexHidesSubscription | PricingPlans.IntendedSelectorContext, PricingPlans.CorrectedLandingIndex, PricingPlans.ContextsAgree |
