# TripWise core, modelled in Dafny

TripWise is a travel-booking web application for Pakistan. It has destinations ("spots"), hotels,
rental cars, a community feed, a login for travellers and administrators, an AI-style recommender
and chat, and checkout and payment pages. This project models its core logic:

- **The mock service layer** (`mockService.ts`). Six local-storage slots hold the spots, hotels,
  cars, posts, the session user and the user directory. On top of them sit:
  - first-run seeding;
  - login, signup and logout over the directory and the session slot;
  - the readers;
  - hotel and car updates by id;
  - post creation;
  - the recommender (region filter, keyword score, sort, first five);
  - the keyword chat dispatcher.

  Each service call is one atomic step. Its meaning is a pure transition over a snapshot of the
  slots (`MockService.Slots`). The class `MockService.Store` holds the slots as fields, and its
  methods perform each transition in place.
- **The page helpers**:
  - the payment form's input normalisers, test data and missing-booking guard (`Payment`);
  - the trip package table, regional base price, total, date guard and spot-id query parameter
    (`Checkout`);
  - the search and region filters, region options and plan-trip link (`Explore`);
  - the type and location filters, their options and the booking guards (`Transport`, `Hotels`,
    with the shared filter pattern in `Catalogue`);
  - the featured-spot image fallback (`Home`);
  - the admin role gate and price-edit state, as the class `Admin.AdminPanel` over a `Store`.

Shared pieces:

- `Seqs` holds the array operations the source calls (`filter`, `findIndex`, `slice`, `new Set`).
- `Text` holds the string operations (`toLowerCase`, `includes`, `replace(/\D/g, '')`,
  `split('@')[0]`, `join`).
- `Entities` holds the records.
- `Booking` holds the navigation state handed to the payment page.

Multipliers are exact: the checkout packages' 1, 1.6 and 3.0 are kept in tenths (10, 16 and 30).
Every base price is a multiple of 1000, so every trip total is an integer. The random score noise,
fresh ids and clock readings are parameters.

## Model

| member | source | states |
|---|---|---|
| MockService.Initialized | mockService.ts:18-41 | every absent collection slot gets its default (seed data, the two seed posts, the admin-only directory); present slots and the session are kept |
| MockService.InitializeIdempotent | mockService.ts:20-40 | seeding a second time, with any defaults and clock reading, changes nothing |
| MockService.FirstRunDirectory | mockService.ts:37-39 | after first-run seeding the directory is exactly one record: `admin1`, `admin@tripwise.pk`, role admin |
| MockService.FindAccount | mockService.ts:50-59 | the first directory position with that email and role, or none exactly when no record matches |
| MockService.FindEmail | mockService.ts:72 | the first position with that email whatever the role, or none exactly when no record has it |
| MockService.NewStandardUser | mockService.ts:61 | a new standard record has the given email and id, role user, and as name the prefix of the email before its first `@` |
| MockService.LoginStep | mockService.ts:44-67 | admin mode succeeds iff an admin record with that email exists, returns the first such record and sets the session to it; on failure it returns the admin error and changes nothing. User mode always succeeds: it appends exactly one new record when there is no user record for the email, otherwise reuses the first one, and sets the session |
| MockService.SecondLoginAppendsNothing | mockService.ts:59-64 | a second standard login with the same email appends nothing and returns the same record |
| MockService.AdminEmailStandardLogin | mockService.ts:59-63 | from the seeded directory, a standard login with the administrator's email adds a second record with that email |
| MockService.SeededAdminLogin | mockService.ts:49-55 | from the seeded directory, `admin@tripwise.pk` logs in as the admin record and any other email is refused with the store unchanged |
| MockService.SignupStep | mockService.ts:69-79 | signup fails with "User already exists", store unchanged, iff some record of any role has the email; otherwise the new user record is appended and becomes the session |
| MockService.SignupThenSameEmail | mockService.ts:72-78 | after a signup the same email is refused a second signup, and a standard login returns the signed-up record without appending |
| MockService.LogoutStep | mockService.ts:81-84 | logout empties the session slot and changes nothing else |
| MockService.LoginThenLogout | mockService.ts:81-84 | a successful login sets the session to the returned record; a logout after any login leaves no session |
| MockService.HotelIndex | mockService.ts:105 | the first position holding the id, or none exactly when no hotel has it |
| MockService.CarIndex | mockService.ts:120 | the first position holding the id, or none exactly when no car has it |
| MockService.UpdateHotelStep | mockService.ts:102-110 | with a known id, only the first hotel with that id is replaced, and the length, the other hotels and all other slots are unchanged; an unknown id leaves the store unchanged |
| MockService.UpdateCarStep | mockService.ts:117-125 | with a known id, only the first car with that id is replaced, and the length, the other cars and all other slots are unchanged; an unknown id leaves the store unchanged |
| MockService.UpdateHotelRoundTrip | mockService.ts:102-110 | after updating a known id, looking the id up again finds the same position holding exactly the new hotel |
| MockService.UpdateCarRoundTrip | mockService.ts:117-125 | after updating a known id, looking the id up again finds the same position holding exactly the new car |
| MockService.NewPost | mockService.ts:168-173 | the new post has the fresh id, zero likes, the clock reading and every other field of the caller's draft |
| MockService.CreatePostStep | mockService.ts:165-175 | the stored posts become the new post followed by the old posts; no other slot changes |
| MockService.PostsNewestFirst | mockService.ts:174 | two posts in a row read back newest first, ahead of the older ones |
| MockService.Store.constructor | mockService.ts:8-15 | a fresh storage has none of the six slots |
| MockService.Store.InitializeData | mockService.ts:18-41 | the new slots are the seeding transition of the old ones |
| MockService.Store.Login | mockService.ts:44-67 | the result and the new slots are the login transition of the old ones |
| MockService.Store.Signup | mockService.ts:69-79 | the result and the new slots are the signup transition of the old ones |
| MockService.Store.Logout | mockService.ts:81-84 | the new slots are the logout transition of the old ones |
| MockService.Store.GetCurrentUser | mockService.ts:86-89 | the session record, or nothing exactly when the session slot is empty |
| MockService.Store.GetSpots | mockService.ts:92-95 | the stored spots, or empty when the slot is absent |
| MockService.Store.GetHotels | mockService.ts:97-100 | the stored hotels, or empty when the slot is absent |
| MockService.Store.GetCars | mockService.ts:112-115 | the stored cars, or empty when the slot is absent |
| MockService.Store.GetCommunityPosts | mockService.ts:160-163 | the stored posts, or empty when the slot is absent |
| MockService.Store.UpdateHotel | mockService.ts:102-110 | the new slots are the hotel-update transition of the old ones |
| MockService.Store.UpdateCar | mockService.ts:117-125 | the new slots are the car-update transition of the old ones |
| MockService.Store.CreatePost | mockService.ts:165-175 | the new slots are the post-creation transition of the old ones |
| Recommender.InterestWeight | mockService.ts:135-138 | one interest adds 5 iff its lowercased form is a tag, and 2 iff it occurs in the lowercased description |
| Recommender.BaseScore | mockService.ts:134-138 | the integer score is never negative and at most 7 per requested interest |
| Recommender.BaseScoreCounts | mockService.ts:134-139 | the integer score is 5 per interest found among the tags plus 2 per interest found in the description |
| Recommender.BaseScoreZero | mockService.ts:134-139 | the integer score is never negative; it is 0 iff no interest matches, and otherwise at least 2 |
| Recommender.Candidates | mockService.ts:132 | with no region or an empty one all spots; otherwise exactly the spots of that region, each as often as in the input, in order |
| Recommender.ScoreAll | mockService.ts:133-140 | each candidate keeps its position, with its integer score and that score plus its own noise draw |
| Recommender.Insert | mockService.ts:142 | inserting into a sorted list keeps it sorted by decreasing score and adds exactly that entry |
| Recommender.SortByScore | mockService.ts:142 | the sort is ordered by non-increasing score and a permutation of its input |
| Recommender.Recommend | mockService.ts:128-143 | min(5, number of candidates) entries, all from the region-filtered candidates, in non-increasing score order, drawn from the scored candidates; no candidate left out scores above any returned one |
| Recommender.TopOfSorted | mockService.ts:142 | the first n of a sorted list are part of it and dominate everything after them |
| Recommender.RecommendNoise | mockService.ts:139 | with noise in [0, 2), each returned score lies in [integer score, integer score + 2) |
| Recommender.ZeroMatchNeverOutranks | mockService.ts:139-142 | if a candidate matching some interest is left out, every returned spot matches some interest |
| Recommender.MatchingFirst | mockService.ts:139-142 | within the result, no zero-match spot stands before a matching spot |
| Chat.FindNamedSpot | mockService.ts:154 | the first spot whose lowercased name occurs in the query, or none exactly when no name occurs |
| Chat.Classify | mockService.ts:147-157 | the reply is price iff the lowercased query has "price" or "cost"; else season iff "weather" or "best time"; else food iff "food"; else the first named spot; else the fallback iff no spot is named |
| Chat.ReplyText | mockService.ts:149-157 | a spot reply starts with the spot name and the fixed praise and ends with the spot description; every other reply is one of the four fixed texts |
| Chat.AskAIChat | mockService.ts:145-158 | the lowercased query gets the price text if it asks about price or cost; else the season text for weather or best time; else the food text for food; else, for the first spot whose lowercased name it contains, "<name> is a great choice! It's known for <tags joined by ', '>. <description>"; else the fallback text |
| Chat.TopicBeatsSpotName | mockService.ts:149 | a query mentioning cost gets the price reply whatever spots it names |
| Chat.CaseInsensitive | mockService.ts:147 | a query and its lowercased form get the same reply |
| Payment.InitialForm | pages/Payment.tsx:15-24 | the form starts with the eight fields, all empty |
| Payment.MockData | pages/Payment.tsx:26-37 | the test data fills exactly the form's fields |
| Payment.Group4Shape | pages/Payment.tsx:59 | grouping puts a space exactly at every fifth position, never at the end, and adds (n-1)/4 spaces |
| Payment.Group4 | pages/Payment.tsx:59 | grouping n characters gives n characters plus one space per block after the first |
| Payment.Group4Filter | pages/Payment.tsx:59 | grouping adds only spaces: any filter that drops spaces sees the input unchanged |
| Payment.FormatCardNumber | pages/Payment.tsx:59 | only digits and spaces, at most 19 characters and 16 digits; without its spaces it is the first min(16, n) digits of the input in order; spaces stand exactly at every fifth position and never at the end |
| Payment.CardNumberIdempotent | pages/Payment.tsx:59 | normalising a normalised card number changes nothing |
| Payment.FormatExpiry | pages/Payment.tsx:62-63 | at most 5 characters; its digits are the first min(4, n) input digits; a `/` appears iff 3 or more digits remain, and then exactly at position 2 with digits everywhere else |
| Payment.ExpiryIdempotent | pages/Payment.tsx:62-63 | normalising a normalised expiry changes nothing |
| Payment.FormatCvc | pages/Payment.tsx:66 | a prefix of the input's digits, of length min(3, n), digits only |
| Payment.Normalise | pages/Payment.tsx:56-69 | the card number, expiry and CVC fields go through their own normalisers; any other field is stored verbatim |
| Payment.HandleChange | pages/Payment.tsx:56-70 | the edited field gets its normalised value and every other field is unchanged |
| Payment.MockCardNumberIsNormalised | pages/Payment.tsx:29 | the test card number is a fixed point of the card-number normaliser |
| Payment.MockExpiryIsNormalised | pages/Payment.tsx:30 | the test expiry is a fixed point of the expiry normaliser |
| Payment.MockCvcIsNormalised | pages/Payment.tsx:31 | the test CVC is a fixed point of the CVC normaliser |
| Payment.PaymentScreen | pages/Payment.tsx:39-54 | the form is shown iff there is navigation state with an item and a non-zero total; otherwise "Session Expired" |
| Checkout.FindPackage | pages/Checkout.tsx:27-31 | a package is found iff the id is p1, p2 or p3, and then it is the table entry with that id |
| Checkout.BasePrice | pages/Checkout.tsx:48-57 | Gilgit-Baltistan 25000, Northern Areas 22000, Balochistan 18000, Punjab 12000, Sindh 15000, any other region 10000; so every base price is between 10000 and 25000 and a multiple of 1000 |
| Checkout.CalculateTotal | pages/Checkout.tsx:59-65 | 0 without a spot or with an unknown package; otherwise ten times the total is base price × multiplier tenths × guests |
| Checkout.ShortPackageIsBase | pages/Checkout.tsx:28 | package p1 costs the base price per guest |
| Checkout.DefaultTotal | pages/Checkout.tsx:23-25 | with the defaults (p2, two guests) the total is 3.2 times the base price |
| Checkout.TotalIncreasing | pages/Checkout.tsx:59-65 | with a known package the total is positive from one guest on and strictly increasing in guests |
| Checkout.ProceedToPayment | pages/Checkout.tsx:67-88 | with no date it only alerts "Please select a start date for your trip."; otherwise it goes to payment with kind trip, the spot, the package name and days, the guests, the date and the calculated total |
| Checkout.CheckoutReachesPayment | pages/Checkout.tsx:67-88 | a dated checkout of a spot with a known package and at least one guest opens the payment form; with an unknown package the payment page shows "Session Expired" |
| Checkout.SearchOf | pages/Checkout.tsx:34 | the search part of a route is empty iff it has no `?`, and otherwise starts at its first `?` and ends the route |
| Checkout.QueryGet | pages/Checkout.tsx:34-35 | splitting the query at `&`, the value is that of the first non-empty pair whose name (the text before its first `=`) is the key, or empty when that pair has no `=`; none exactly when no pair has the name; a value never contains `&` |
| Checkout.QueryGetCons | pages/Checkout.tsx:34-35 | a first pair named by the key gives its value whatever follows; a first pair with another name is skipped |
| Checkout.SearchParam | pages/Checkout.tsx:34-35 | the parameter of a search string, with its leading `?` skipped, never contains `&` |
| Checkout.QueryGetSingle | pages/Checkout.tsx:34-35 | the query `key=value` yields the value for the key |
| Checkout.LoadSpot | pages/Checkout.tsx:33-45 | the spot found is the first one in the list with the id from the query; there is none iff the id is absent or empty or no spot has it |
| Checkout.PlanTripRoundTrip | pages/Checkout.tsx:33-45 | the id put in a plan-trip link by the explore page is the id the checkout page reads back, and it finds a spot with that id when the list has one |
| Explore.SearchFilter | pages/Explore.tsx:21-24 | an empty search keeps the list; otherwise exactly the spots whose lowercased name or some lowercased tag contains the lowercased search, each as often as in the input, as a subsequence |
| Explore.RegionFilter | pages/Explore.tsx:25-27 | `All` keeps the list; otherwise exactly the spots of that region, each as often as in the input, as a subsequence |
| Explore.FilterSpots | pages/Explore.tsx:19-29 | an empty search with `All` gives the list unchanged; a spot is kept iff it passes both filters, and then as often as in the input |
| Explore.FilterSpotsOrdered | pages/Explore.tsx:19-29 | the filtered list is a subsequence of the input, keeping its order |
| Explore.Regions | pages/Explore.tsx:35 | the region options are distinct, include every spot's region and nothing else, in order of first appearance |
| Explore.PlanTripUrl | pages/Explore.tsx:31-33 | the link is the checkout route with `?spotId=` followed by the id as written |
| Catalogue.FilterBy | pages/Transport.tsx:25-31 | `All` keeps the list; any other choice keeps, in order, exactly the items with that field value, each as often as before |
| Catalogue.Options | pages/Hotels.tsx:27 | the options are distinct, include every item's field value and nothing else, in order of first appearance |
| Catalogue.OptionNonEmpty | pages/Transport.tsx:66-67 | choosing any offered option leaves at least one item |
| Transport.FilterCars | pages/Transport.tsx:25-31 | `All` shows every car; another type keeps, in order, exactly the cars of that type with their multiplicities |
| Transport.UniqueTypes | pages/Transport.tsx:33 | the type options are distinct and cover exactly the cars' types, in order of first appearance |
| Transport.HandleRent | pages/Transport.tsx:35-55 | no car: nothing happens; no pickup date: the alert "Please select a pickup date."; otherwise payment with kind car, the car, the date, the days and price per day × days |
| Transport.RentReachesPayment | pages/Transport.tsx:42 | for a priced car the payment form opens and the total strictly grows with the offered day count; a car priced 0 is turned away as "Session Expired" |
| Hotels.FilterHotels | pages/Hotels.tsx:22-25 | `All` shows every hotel; another location keeps, in order, exactly the hotels there with their multiplicities |
| Hotels.UniqueLocations | pages/Hotels.tsx:27 | the location options are distinct and cover exactly the hotels' locations, in order of first appearance |
| Hotels.HandleBook | pages/Hotels.tsx:29-44 | no hotel: nothing happens; no check-in date: the alert "Please select a check-in date."; otherwise payment with kind hotel, the hotel, the date, the guests and one night's price |
| Hotels.GuestsDoNotChangeTotal | pages/Hotels.tsx:35 | the booking total does not depend on the number of guests; the payment form opens iff the nightly price is not zero |
| Home.ImageKey | pages/Home.tsx:29 | the first table key, in table order, whose lowercased form occurs in the lowercased name; none exactly when no key occurs |
| Home.WithImage | pages/Home.tsx:27-32 | only the image changes; an existing image is kept; a missing one becomes the first matching key's image or the placeholder; the result always has an image |
| Home.Featured | pages/Home.tsx:26-33 | the first min(9, n) spots, in order, each with its image resolved |
| Home.FeaturedShape | pages/Home.tsx:26-33 | every featured spot has an image and equals the spot at the same position apart from the image |
| Home.HunzaFirst | pages/Home.tsx:13 | a spot without an image whose lowercased name mentions "hunza" gets the Hunza image |
| Admin.Gate | pages/AdminPanel.tsx:18-24 | the panel shows iff the session user exists and is an administrator; anybody else is sent to `/auth` |
| Admin.PricedHotel | pages/AdminPanel.tsx:37 | the hotel with the new nightly price and every other field unchanged |
| Admin.PricedCar | pages/AdminPanel.tsx:43 | the car with the new daily price and every other field unchanged |
| Admin.SavedHotelPriceShows | pages/AdminPanel.tsx:36-40 | after saving a listed hotel's price, the reloaded list has the same length and shows the new price, with the other fields unchanged, at the same position |
| Admin.SavedCarPriceShows | pages/AdminPanel.tsx:42-46 | after saving a listed car's price, the reloaded list has the same length and shows the new price, with the other fields unchanged, at the same position |
| Admin.AdminPanel.constructor | pages/AdminPanel.tsx:11-16 | empty tables, nothing being edited, edit price 0 |
| Admin.AdminPanel.LoadData | pages/AdminPanel.tsx:26-29 | both tables are read again from the store; the edit state is kept |
| Admin.AdminPanel.Mount | pages/AdminPanel.tsx:18-24 | the result is the gate on the current session; the tables are loaded only for an administrator |
| Admin.AdminPanel.StartEdit | pages/AdminPanel.tsx:31-34 | the editing id is set to the row's id and the edit price to its current price |
| Admin.AdminPanel.SetEditPrice | pages/AdminPanel.tsx:102 | the edit price is the typed price; nothing else changes |
| Admin.AdminPanel.CancelEdit | pages/AdminPanel.tsx:113 | nothing is being edited any more; nothing else changes |
| Admin.AdminPanel.SaveEditHotel | pages/AdminPanel.tsx:36-40 | the store takes the hotel-update transition with the hotel whose nightly price alone is replaced by the edit price; editing ends and the tables are reloaded |
| Admin.AdminPanel.SaveEditCar | pages/AdminPanel.tsx:42-46 | the store takes the car-update transition with the car whose daily price alone is replaced by the edit price; editing ends and the tables are reloaded |
| Seqs.Filter | pages/Explore.tsx:23 | the kept elements are exactly those satisfying the predicate, each as often as in the input, as a subsequence |
| Seqs.Dedup | pages/Explore.tsx:35 | the result is distinct and has the same elements as the input, and an earlier element of the result occurs in the input before every occurrence of a later one |
| Seqs.Take | mockService.ts:142 | the first min(n, length) elements, unchanged |
| Seqs.FirstIndex | mockService.ts:105 | the position of the first element satisfying the predicate, or none exactly when no element does |
| Text.ContainsAt | mockService.ts:149 | a string includes another iff it occurs at some position |
| Text.Digits | pages/Payment.tsx:62 | the digits of the input, each as often as in the input, in order, and nothing else |
| Text.Lower | mockService.ts:147 | the length is kept and every character is mapped to its ASCII lower case |
| Text.Contains | mockService.ts:149 | a prefix is included, and an included string is no longer than the text |
| Text.BeforeFirst | mockService.ts:61 | the longest prefix without the separator; if shorter than the input, the separator follows it |
| Text.Split | mockService.ts:61 | at least one piece; the first piece is the text before the first separator; no piece contains the separator |
| Text.Join | mockService.ts:155 | the join starts with the first part, and a single part is joined to itself |
| Text.JoinSplit | mockService.ts:61 | joining the pieces of a split with the same separator gives back the text |
| Text.SplitJoin | mockService.ts:155 | splitting a join of pieces without the one-character separator gives back the pieces |

## Left out

- Latency: the `delay` promises in the service and the payment timers only schedule work. Each call is one atomic step, and the post-payment success screen is not modelled.
- Serialisation: `JSON.stringify`/`JSON.parse` are left out, and so are stored text that does not parse and records of the wrong shape. The slots hold typed values; an absent slot reads as empty, as the `|| '[]'` fallback does.
- Randomness and clock: `Math.random` ids and score noise, and `Date.now`, are caller-supplied parameters. The noise is bounded to [0, 2).
- Fresh ids: two records given the same fresh id are not ruled out.
- Seed data: the default spots, hotels and cars come from a data file that is not part of this model, so they are a parameter.
- The `typeof window` guard of `initializeData` is not modelled; the model always runs in a browser.
- Concurrency: two interleaved read-modify-write calls (a lost update) are not modelled.
- Floating point: scores are an integer base plus a real noise. Multipliers are exact tenths. `toFixed`/`toLocaleString` display is not modelled.
- Text.Lower: case mapping covers the ASCII letters only; JavaScript `toLowerCase` also maps other scripts.
- Recommender.SortByScore: it is stable (equal scores keep their order), while JavaScript's `sort` promises stability only since ES2019. The ranking contracts do not depend on tie order.
- Checkout.QueryGet: percent-decoding and `+` as space are not modelled, so a value is returned as written. Splitting at `&`, skipping empty pieces and cutting at the first `=` are modelled. The round trip is stated for ids without `&`, `%`, `+` and `#`.
- Checkout and the other pages: the loading flags, renders, animations and `navigate(-1)` are not modelled. The trip handler is modelled with an optional spot, though the page renders its button only once a spot is found.
- Admin.AdminPanel.SetEditPrice: the `NaN` that `parseInt` gives for text that is not a number is not modelled; the edit price is an integer.
- Payment: `handlePayment`, the transaction id and the success screen are timers and display only.
- The other pages (map, offline map, AI planner, community, sign-in, price alerts, about, terms), the layout, the footer and app routing only display data or forward to the service.
