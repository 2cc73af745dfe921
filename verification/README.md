# rent-repair-hub, modelled in Dafny

rent-repair-hub is a bilingual (English/Nepali) real-estate website: listing
pages for renting, buying and completed projects, an admin dashboard that
moderates property submissions and manages client reviews and office
branches, a floating chat widget, and a language context that resolves
dotted translation keys. This project models the logic behind those screens
as pure functions over immutable state and proves what each handler does.

Modules, following the source's structure:

- `Wrappers`, `Seqs`, `Text`: shared helpers. `Option` stands for a value
  that may be missing or `NaN`, `Seqs.Filter` models `Array.prototype.filter`,
  and `Text` provides white space, trimming, ASCII `toLowerCase`, `includes`,
  `split`/`join` and the global `parseInt`.
- `Translator`: the translation tree, the key resolver `t` (as a loop, like
  the source) and `getSqftLabel`.
- `LanguageContext`: the provider state (active language plus the stored
  slot), the initial language, `toggleLanguage`, persistence, and a sample
  of the translation data.
- `Moderation`: the property dashboard of `Admin.tsx`, with its add,
  delete, approve and reject handlers.
- `Listings`: the matching rules shared by the listing pages. These are
  search, exact type, location substring and the price bands.
- `RentPage`, `BuyPage`, `ProjectsPage`: each page's data, its filter and
  its clear-filters button.
- `ReviewsAdmin`, `BranchesAdmin`: the two dialog-based managers, with
  input change, submit (add or edit), edit, delete, add new and cancel.
- `Chatbot`: open, close, minimize, the contact redirect, the guarded send, the bot's answer,
  the Enter key, and what is drawn on which route.

Ids and timestamps that the source takes from `Date.now()` are a `now`
parameter. The browser storage slot is a field of the provider state.

## Model

| member | source | states |
|---|---|---|
| Translator.T | src/contexts/LanguageContext.tsx:465-476 | the loop that splits the key on dots and walks the active language's tree returns exactly the declarative lookup: the leaf string at that path, or the key itself |
| Translator.TranslateResult | src/contexts/LanguageContext.tsx:465-476 | `t` never invents text: its answer is the key or a leaf string of the active language's tree |
| Translator.TranslateFound | src/contexts/LanguageContext.tsx:466-475 | for a path of dot-free segments that leads to a string, `t` of the joined key is that string |
| Translator.TranslateSection | src/contexts/LanguageContext.tsx:475 | a key that ends on a section, not a string, gives back the key |
| Translator.TranslateMissing | src/contexts/LanguageContext.tsx:468-474 | a segment missing from the section reached so far, or one that descends into a string, gives back the key, whatever segments follow |
| Translator.TranslateIgnoresOtherLanguages | src/contexts/LanguageContext.tsx:467 | replacing any other language's tree never changes what `t` answers |
| Translator.SqftFallbackIff | src/pages/Rent.tsx:123-125 | the Nepali fallback of `getSqftLabel` is used exactly when the active tree stores an empty string at `common.sqft`; when the entry is missing, the label is the key |
| LanguageContext.Toggle | src/contexts/LanguageContext.tsx:461-463 | the toggled language always differs from the old one and is English or Nepali |
| LanguageContext.Mount | src/contexts/LanguageContext.tsx:453-459 | a non-empty stored value is adopted without validation, anything else gives English, and the slot then holds the active language |
| LanguageContext.ToggleLanguage | src/contexts/LanguageContext.tsx:457-463 | after a toggle the language has changed, is supported, and is persisted |
| LanguageContext.ToggleTwice | src/contexts/LanguageContext.tsx:461-463 | from English or Nepali, two toggles restore the language, and the whole state when it was persisted |
| LanguageContext.ToggleTwiceUnsupported | src/contexts/LanguageContext.tsx:453-463 | from an unvalidated stored tag, two toggles end on Nepali rather than on the tag |
| LanguageContext.SessionPersisted | src/contexts/LanguageContext.tsx:453-463 | after mounting and any number of toggles, the slot mirrors the active language; an even number of toggles from a supported language returns to the mounted state |
| LanguageContext.SampleHome | src/contexts/LanguageContext.tsx:465-476 | `nav.home` reads "Home" in English and "गृह" in Nepali |
| LanguageContext.SampleMissing | src/contexts/LanguageContext.tsx:468-475 | a key absent from the data shows as itself in both languages |
| LanguageContext.SampleNavSection | src/contexts/LanguageContext.tsx:475 | `nav` names a section, so `t("nav")` is `"nav"` |
| LanguageContext.SampleStatsSection | src/contexts/LanguageContext.tsx:475 | `about.stats` names a section, so it shows as itself |
| LanguageContext.SampleSqft | src/pages/Rent.tsx:123-125 | with no `common.sqft` entry, the label is the key `common.sqft` and never the fallback |
| LanguageContext.FirstVisitScenario | src/contexts/LanguageContext.tsx:453-476 | a first visit is English and shows "Home"; one toggle stores `np` and shows "गृह" |
| LanguageContext.UnsupportedStoredTag | src/contexts/LanguageContext.tsx:453-455 | an unsupported stored tag is adopted, and every key then shows as itself |
| Moderation.Find | src/pages/Admin.tsx:114 | `find` fails exactly when no entry has the id; otherwise it returns the first entry with the id |
| Moderation.WithoutId | src/pages/Admin.tsx:109 | the filter keeps, in order and with multiplicity, exactly the entries with another id; an absent id changes nothing |
| Moderation.WithoutIdLength | src/pages/Admin.tsx:109 | with distinct ids, removing a present id drops exactly one entry |
| Moderation.AddProperty | src/pages/Admin.tsx:76-106 | a form missing a title, price or location changes nothing; otherwise the record built from the form is appended after the old list, the pending list is kept and the form is reset |
| Moderation.FromFormNumbers | src/pages/Admin.tsx:82-91 | decimal text becomes its number, an unreadable count becomes 0, the id is the clock value, the status is active, and an empty image gets the placeholder |
| Moderation.DeleteProperty | src/pages/Admin.tsx:108-111 | exactly the published entries with the id are removed, order kept; pending and form are untouched |
| Moderation.Approve | src/pages/Admin.tsx:113-120 | an unknown id changes nothing; otherwise the first pending entry with the id is appended to the published list, marked active, and every pending entry with the id is dropped |
| Moderation.Reject | src/pages/Admin.tsx:122-125 | exactly the pending entries with the id are dropped; the published list never changes |
| Moderation.ApproveIdempotent | src/pages/Admin.tsx:113-120 | approving the same id twice equals approving it once |
| Moderation.ApproveMovesOne | src/pages/Admin.tsx:113-120 | with distinct pending ids, approval moves exactly one entry and keeps the total count |
| Moderation.RejectRemovesOne | src/pages/Admin.tsx:122-125 | with distinct pending ids, rejection removes exactly one submission and publishes nothing |
| Moderation.StatusesPreserved | src/pages/Admin.tsx:76-125 | every handler keeps the published entries active and the submissions pending |
| Moderation.InitialStatuses | src/pages/Admin.tsx:17-59 | the mock data starts with consistent statuses |
| Moderation.ApproveMockSubmission | src/pages/Admin.tsx:46-59 | approving the mock submission publishes it third, with its own id and date, and empties the pending list |
| Listings.BandsPartition | src/pages/Rent.tsx:104-117 | with four distinct labels over increasing bounds, every price lies in exactly one band |
| Listings.NaNInNoBand | src/pages/Buy.tsx:101-115 | a price that did not parse fails every band |
| Listings.UnknownLabelUnrestricted | src/pages/Rent.tsx:101-117 | a label outside the four cases leaves the price unrestricted |
| RentPage.Filtered | src/pages/Rent.tsx:95-121 | the result is a sublist of the listings holding exactly those that match the search, type, location and price filters |
| RentPage.ClearFilters | src/pages/Rent.tsx:262-267 | after clearing, every listing shows and every other filter choice is narrower |
| RentPage.NarrowingShrinks | src/pages/Rent.tsx:95-121 | filling in an empty filter never brings a listing back |
| RentPage.BandsValid | src/pages/Rent.tsx:104-117 | the rent bands' labels are distinct and their bounds increase |
| RentPage.PriceFormat | src/pages/Rent.tsx:103 | a rent written `रू <digits>,<digits>/month` parses to the number its digits spell |
| RentPage.FirstListingPrice | src/pages/Rent.tsx:103 | the first listing's "रू 22,000/month" parses to 22000 |
| BuyPage.Filtered | src/pages/Buy.tsx:89-120 | the result is a sublist of the properties holding exactly those that match all four filters |
| BuyPage.ClearFilters | src/pages/Buy.tsx:122-127 | after clearing, every property shows and every other filter choice is narrower |
| BuyPage.NarrowingShrinks | src/pages/Buy.tsx:89-120 | filling in an empty filter never brings a property back |
| BuyPage.StripGroups | src/pages/Buy.tsx:101 | removing the noise class from comma-separated digit groups leaves the digits |
| BuyPage.PriceFormat | src/pages/Buy.tsx:101 | a price `रू` followed by comma-separated digit groups parses to the number its digits spell, whatever the grouping |
| BuyPage.SecondPropertyPrice | src/pages/Buy.tsx:101-105 | "रू 45,00,000" is 4500000 and falls under the lowest band |
| BuyPage.FirstPropertyPrice | src/pages/Buy.tsx:101-115 | "रू 1,20,00,000" is 12000000 and falls in the top band |
| ProjectsPage.Filtered | src/pages/Projects.tsx:95-104 | the result is a sublist of the projects holding exactly those whose title, location or client contains the search and that match type, location and status |
| ProjectsPage.ClearFilters | src/pages/Projects.tsx:242-247 | after clearing, every project shows and every other filter choice is narrower |
| ProjectsPage.NarrowingShrinks | src/pages/Projects.tsx:95-104 | filling in an empty filter never brings a project back |
| ProjectsPage.OtherStatusEmpty | src/pages/Projects.tsx:101 | since every project is completed, any other status filter empties the list |
| ProjectsPage.CompletedStatusUnrestricted | src/pages/Projects.tsx:101 | the status "completed" filters nothing out |
| ReviewsAdmin.InputChange | src/components/admin/AdminReviews.tsx:54-60 | only the named field changes; the rating is `parseInt` of the value |
| ReviewsAdmin.Submit | src/components/admin/AdminReviews.tsx:62-92 | when editing, ids and order are kept, entries with the edited id take the form, and the others are unchanged; when adding, a review with id `now` and the form's fields is appended; either way the dialog closes and the form resets |
| ReviewsAdmin.Edit | src/components/admin/AdminReviews.tsx:94-103 | the dialog opens on the review, and its form, merged back, is the review itself |
| ReviewsAdmin.Delete | src/components/admin/AdminReviews.tsx:105-111 | the remaining reviews are a sublist holding exactly those with another id, each as many times as before |
| ReviewsAdmin.AddNew | src/components/admin/AdminReviews.tsx:113-117 | the dialog opens in add mode with a blank form of five stars |
| ReviewsAdmin.Cancel | src/components/admin/AdminReviews.tsx:189 | only the dialog closes |
| ReviewsAdmin.EditSubmitUnchanged | src/components/admin/AdminReviews.tsx:62-103 | with distinct ids, editing a review and saving it untouched leaves the list as it was |
| ReviewsAdmin.AddDeleteRoundTrip | src/components/admin/AdminReviews.tsx:62-111 | adding a review under an unused id and deleting that id restores the list |
| ReviewsAdmin.InitialUniqueIds | src/components/admin/AdminReviews.tsx:21-43 | the mounted reviews have distinct ids |
| ReviewsAdmin.EditSubmitInitial | src/components/admin/AdminReviews.tsx:21-103 | on the panel as mounted, editing any review and saving it untouched leaves the list as it was |
| ReviewsAdmin.DeleteUnknown | src/components/admin/AdminReviews.tsx:105-111 | deleting an id no review has changes nothing |
| ReviewsAdmin.RatingRoundTrip | src/components/admin/AdminReviews.tsx:55 | a rating written as a number reads back as that number |
| BranchesAdmin.InputChange | src/components/admin/AdminBranches.tsx:54-59 | only the named field changes |
| BranchesAdmin.Submit | src/components/admin/AdminBranches.tsx:61-91 | when editing, ids and order are kept, entries with the edited id take the form, and the others are unchanged; when adding, a branch with id `now` is appended; either way the dialog closes and the form resets |
| BranchesAdmin.Edit | src/components/admin/AdminBranches.tsx:93-101 | the dialog opens on the branch, and its form, merged back, is the branch itself |
| BranchesAdmin.Delete | src/components/admin/AdminBranches.tsx:103-109 | the remaining branches are a sublist holding exactly those with another id, each as many times as before |
| BranchesAdmin.AddNew | src/components/admin/AdminBranches.tsx:111-115 | the dialog opens in add mode with a blank form |
| BranchesAdmin.Cancel | src/components/admin/AdminBranches.tsx:169 | only the dialog closes |
| BranchesAdmin.EditSubmitUnchanged | src/components/admin/AdminBranches.tsx:61-101 | with distinct ids, editing a branch and saving it untouched leaves the list as it was |
| BranchesAdmin.AddDeleteRoundTrip | src/components/admin/AdminBranches.tsx:61-109 | adding a branch under an unused id and deleting that id restores the list |
| BranchesAdmin.InitialUniqueIds | src/components/admin/AdminBranches.tsx:19-44 | the mounted branches have distinct ids |
| BranchesAdmin.EditSubmitInitial | src/components/admin/AdminBranches.tsx:19-101 | on the panel as mounted, editing any branch and saving it untouched leaves the list as it was |
| BranchesAdmin.DeleteUnknown | src/components/admin/AdminBranches.tsx:103-109 | deleting an id no branch has changes nothing |
| Chatbot.Initial | src/components/Chatbot.tsx:16-27 | the widget starts closed, full size, with the bot's greeting (id 1, the fixed greeting text) alone and an empty input |
| Chatbot.Open | src/components/Chatbot.tsx:105-108 | opening shows the full window and keeps the conversation |
| Chatbot.Close | src/components/Chatbot.tsx:99-102 | closing also resets minimize and keeps the conversation |
| Chatbot.Redirect | src/components/Chatbot.tsx:81-85 | the redirect closes the widget as the close button does and navigates to `/contact` |
| Chatbot.ToggleMinimize | src/components/Chatbot.tsx:94-96 | only the minimized flag flips |
| Chatbot.ToggleTwice | src/components/Chatbot.tsx:94-96 | minimizing twice restores the widget exactly |
| Chatbot.SetInput | src/components/Chatbot.tsx:199 | typing replaces the input text and leaves the flags and the conversation alone |
| Chatbot.Send | src/components/Chatbot.tsx:55-68 | blank input changes nothing; otherwise the untrimmed input is appended as a visitor message and the input is cleared |
| Chatbot.Reply | src/components/Chatbot.tsx:70-78 | the delayed answer appends one bot message with the fixed thank-you text and id one above the clock value the timer callback reads; nothing else changes |
| Chatbot.SendThenReply | src/components/Chatbot.tsx:55-78 | a non-blank send at clock `now` and its reply at clock `later` add the visitor's message with id `now` and then the bot's with id `later + 1`, in that order, and leave the input empty |
| Chatbot.KeyPress | src/components/Chatbot.tsx:87-91 | Enter sends; any other key does nothing |
| Chatbot.SendIgnoredIffBlank | src/components/Chatbot.tsx:56 | a send leaves the widget unchanged exactly when the input is all white space |
| Chatbot.SendExtends | src/components/Chatbot.tsx:59-67 | a send never rewrites the conversation and adds at most one message |
| Chatbot.FlagsPreserved | src/components/Chatbot.tsx:94-108 | no reachable handler leaves a closed widget minimized |
| Chatbot.Rendering | src/components/Chatbot.tsx:33-35 | on `/admin` nothing is drawn; elsewhere exactly one of the button and the window is drawn |
| Chatbot.OpenShowsConversation | src/components/Chatbot.tsx:105-162 | off `/admin`, opening shows the conversation, and closing or redirecting brings the button back |
| Text.RemoveAllIsFilter | src/pages/Buy.tsx:101 | removing a character class, as the price `replace` does, keeps exactly the other characters, in order and with their multiplicities |
| Text.ParseShow | src/components/admin/AdminReviews.tsx:55 | `parseInt` of an integer's decimal text is that integer |

## Left out

- Rendering beyond the flags above is left out: JSX, styling, icons, toasts, dialogs' markup and scrolling refs are presentation.
- Browser storage is left out: it is a field of the provider state (`stored`), and reads and writes are field updates.
- `Date.now()` is left out: it is a `now` parameter.
- Chatbot.Reply: the one-second delay of the bot's answer is not modelled. The answer is a separate event, and other events may come between the send and the answer.
- The `timestamp` field of chat messages (`new Date()`) is left out. Nothing reads it.
- Chatbot.Rendering: the route is a parameter of a single render. The early return on `/admin` comes before the widget's `useEffect` calls, so one mounted widget whose route changes to or from `/admin` would render a different number of hooks. That route-change behaviour is not modelled.
- Scroll and resize listeners (`isScrolled`) are left out: they only change styling.
- `src/pages/Login.tsx`, `src/pages/Contact.tsx`, `src/pages/Others.tsx` and the other context files are not part of this model.
- `Text.Lower` lowers ASCII `A`–`Z` only. Full Unicode `toLowerCase` is not modelled; the Nepali text has no case anyway.
- `Text.ParseInt` reads unbounded integers. JavaScript's double precision loss on very long digit runs is not modelled.
- Display-only fields are left out: images on the listing pages, beds, baths (including the 2.5 value), square feet, dates, sizes and durations. The filters never read them.
- Translation data is modelled only as a sample of the `nav`, `about` and `common` sections. The other leaves are display text that no rule reads.
- JavaScript's `in` also finds inherited object properties such as `constructor`. The model looks keys up only in the section's own entries.
- `handleInputChange` writes to a computed key, which could be any input name. The model allows only the form's own field names (`Field`).
- HTML `required` attributes stop an empty submission in the browser before `handleSubmit` runs. The model submits whatever the form holds.
- The input wiring of the add-property form is not modelled. The form is a `PropertyForm` value.
- There is no max + 1 id allocator: a new property takes the clock value `now`, and approval keeps the submission's own id, as the code does.
- Approval does not rewrite rent or sale prices. The code copies the entry as it is.
- There is no status toggle or property edit: the code has neither.
- The stored language is not validated. The code adopts any non-empty stored string.
- `BuyPage.IsPriceNoise` counts every white-space character as noise (the `\s` of the pattern). `RentPage.IsPriceNoise` removes the letters `m`, `o`, `n`, `t`, `h` and the slash one by one, as its character class does.
