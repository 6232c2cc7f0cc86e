# Booking, cache, one-time code and session model

This project models the parts of the hotel booking back end in which state, time or arithmetic has to fit together
across several requests, and proves what they keep. Tables are maps and sequences of rows; services are classes
whose methods change them step by step; each method is proved against a function that says what the request does,
and the theorems are about every state that any sequence of requests can reach.

Four areas are covered.

**Bookings and payments** (`BookingModel`, `RoomStates`, `BookingRuns`, `BookingRequests`, `BookingScenarios`,
`Availability`, `LateWrites`, `LatePayments`, `LateScenarios`, `Nights`, `PaymentTable`, `PaymentEvents`, `Money`,
and the classes in `BookingService` and `PaymentService`). A run is any sequence of create, status and payment
requests and gateway events, in which a success event is handled either whole or in three parts with other requests
in between. It is stated exactly which runs sell no room twice for a night and keep within the capacity of every
window; an accepted check stays good under everything but another insert, a booking's history is a path with at
most three changes and one confirmation, a confirmed booking has been paid, and each amount is the exact sum of
price times nights from the request to the number of cents the gateway is asked for. Creates, intents, status
requests and cash confirmations are also split at their awaits, with the exact condition under which a run of such
parts sells no room twice and saves no payment twice. Float steps are real numbers within relative error 2^-53 of
the exact result (section 4.3.1 of IEEE 754-2019).

**Cached lists** (`CacheKeys`, `QueryCache`, `CacheRuns`, `TimedCache`, `HotelService`, `DetailRuns`, `RoomModel`,
`RoomRequests`, `RoomService`, `ListContents`, `PaymentService`). A key is text; it is shown to name its query, by
showing that the serialised filter (section 25.5.2 of ECMA-262 with a sorted key list) determines the defined
fields. A cached read is what the uncached query would give exactly when what is stored is right, and it is stated
exactly which writes leave what is stored right, for single writes and over runs of interleaved reads and writes;
with expiry no answer is older than the time to live, and a run is given in which a refilled entry outlives its
registration and goes stale.

**Codes and sessions** (`OtpModel`, `OtpRequests`, `OtpRuns`, `TwoFactorFlag`, `OtpServices`, `LateCodes`,
`TokenModel`, `TokenRequests`, `TokenRuns`, `TokenServices`, `LateLogins`). Where a lookup can match several rows,
the model allows any answer the database could give. A code is compared at most as often as its limit, accepted at
most once across all services and never late, where a wrong code at login is not compared at all; the two-factor
flag and the records agree; an account has at most one live refresh token, and every successful refresh goes back
to its latest login.

**Relations, transactions and dates** (`Links`, `LinkServices`, `Transactions`, `TransactionSteps`, `Calendar`). Checks that compare
counts accept exactly the duplicate-free lists of known ids; nested decorated calls share one all-or-nothing
transaction; the range of a bare date holds exactly the instants that have that date in Myanmar (fixed UTC+6:30),
by calendar arithmetic of section 21.4.1 of ECMA-262.

`SequenceFacts` holds the facts about sequences, filters and finite sets that these share, `Runs` the theorem that
turns the condition for one step into the condition for a run, and `Ids` the difference between an id as a request
spells it and the stored id that it denotes. What each request does to the stored fields is stated in the modules
whose names end in `Requests`, in `PaymentEvents` and in `ListContents`, without the functions that compute it.

Statements that look true of the code but are not, each with the exact condition under which it holds:

- A cached list stays fresh under writes: if and only if its key is unstored or listed when the write comes
  (`TimedCache.FreshAfterEveryWriteIff`), which is so until the first entry can expire
  (`TimedCache.FreshWithoutExpiry`). In every setup with two keys a run breaks it
  (`TimedCache.RefilledEntryGoesStale`).
- A cached list stays fresh when another service writes rows it depends on. Room lists do under a booking's room
  status exactly when no stored filter matches a changed room before or after the write
  (`RoomService.StatusWriteRightIff`), and under a room type's change exactly when no matching room is of a
  changed type (`RoomService.TypeWriteRightIff`). Hotel lists do exactly when no visible hotel begins or ceases to
  offer what a stored filter asks for (`HotelService.OfferWriteRightIff`). Both fail: a list of available rooms
  shows a room after its guest has checked in (`RoomService.CheckInLeavesListStale`), and a list up to a price goes
  wrong whenever a price crosses it (`HotelService.PriceChangeLeavesListRightIff`,
  `HotelService.PriceRiseLeavesListStale`). A cached single hotel stays
  fresh exactly when none of its own joined rows change (`HotelService.HotelService.OtherServiceWrites`).
- No room is sold twice for a night: over runs of whole requests exactly when no stored request wants one room twice
  for a night, which the check for repeated rooms misses when the two ids are spelled in different letter cases
  (`Availability.NoNightIsSoldTwiceIff`, `Availability.WindowCapacityIff`, and a run in which one accepted request does
  it, `BookingScenarios.SpellingSellsTwice`).
- A request that has passed its checks can write: over any run in which creates, status requests and cash
  confirmations are split at their awaits no room is sold twice exactly when, besides, each insert finds its rooms
  still free and each late status write ends its booking, or finds it not ended, or finds its rooms not resold
  (`LateWrites.LateRunSafeIff`). A cash confirmation can revive a cancelled booking whose room is resold
  (`LateScenarios.LateCashSellsTwice`).
- A booking has one pending payment, and one cash payment: with the requests split, exactly when each payment that is
  saved finds no other of its kind (`LatePayments.PendingOnceIff`, `LatePayments.CashOnceIff`); two at a time leave two
  (`LateScenarios.TwoIntentsAreStored`, `LateScenarios.TwoCashPaymentsAreStored`).
- A cached list or hotel is right after a write of its own service: exactly when it was asked for with the spelling of
  the hotel's id that the write came with, or names another hotel, or shows nothing that the write changes
  (`RoomService.WriteThroughRightIff`, `HotelService.DetailAfterWriteIff`). Through another letter case a removed room
  and a removed hotel are still shown (`RoomService.RemovalMissesOtherSpelling`,
  `HotelService.RemovalMissesOtherSpelling`).
- Reads at the same time as each other or as a write leave the cache right: exactly when each answer is stored while its
  rows are as they were read, and each write finds what it changes in its registry (`CacheRuns.ListsRightIff`,
  `DetailRuns.DetailsRightIff`); a late answer and a lost registration break it (`CacheRuns.LateStoreIsStale`,
  `CacheRuns.LostListingIsStale`).
- A code is accepted once and its counter counts the comparisons: with lookup and save of its verifications
  interleaved, exactly when no verification compares after an acceptance that came since its lookup, and each save
  finds the counter as it was looked up (`LateCodes.AcceptedOnceIff`, `LateCodes.CounterCountsIff`,
  `LateCodes.AcceptedTwice`).
- An account has one live token: with logins split, exactly when each token that is stored finds none
  (`LateLogins.OneLiveTokenIff`, `LateLogins.TwoLoginsLeaveTwo`).
- The nights charged are the nights stored: exactly when the check-out time is at most twelve hours earlier and less
  than twelve hours later in its UTC day than the check-in time (`Nights.ChargedAsStoredIff`), so always for bare
  dates, while the body check also takes times (`Nights.NightsCanDiffer`).
- Two accepted creates do not clash: when both are checked before both insert, exactly if they share no room and
  night and neither clashes with itself (`Availability.OverlappingCreatesSafeIff`). One insert keeps the table safe
  exactly when its rooms are still free and it wants none twice for a night (`Availability.InsertIsSafeIff`).
- An admin may pay for any booking: the payment row refers to `users`, so this succeeds exactly for a caller whose
  id is a stored user's, which an admin's is not; the gateway has then made an intent that no row records
  (`BookingRequests.IntentAcceptedIff`, `BookingRequests.AdminIntentIsLostIff`, and a run in which it happens,
  `BookingScenarios.AdminIntentIsLost`). A create by an admin fails alike (`BookingRequests.CreateStoredIff`).
- A booking charges the listed prices: exactly when all its rate options are in USD, because a rate option's own
  currency is not read (`BookingRequests.ListedPricesChargedIff`); in a run 200.00 EUR become 200.00 USD
  (`BookingScenarios.EuroPriceChargedAsDollars`).
- A text-message code is accepted only if the gateway vouched for it: the reset path that compares stored codes
  accepts the placeholder instead, and nothing else (`OtpRuns.TextRecordAcceptedIff`,
  `OtpRuns.PlaceholderIsAccepted`).
- A wrong code costs an attempt: exactly on the paths other than the login, where the code is part of the lookup
  (`OtpRuns.WrongCodeCostsIff`); the limit of three does not bound wrong login codes
  (`OtpRuns.WrongLoginsAreFree`).
- A new password ends the account's session: exactly when the owner changed it or a user reset it
  (`TokenRuns.PasswordEndsSessionIff`); in any run the token from before refreshes after every other way of setting
  a password (`TokenRuns.TokenSurvivesPasswordIff`, `TokenRuns.SessionOutlivesReset`).
- An admin's logout ends the session: exactly when no other row bears the token, if the row found may be any
  (`TokenRuns.LogoutAlwaysEndsIff`); two rows bear one token when two logins fall within a second
  (`TokenRuns.SameTokenIffSameSecond`, `TokenRuns.AdminLogoutCanMiss`).

For the agreement of the two-factor flag with the records no condition is needed in runs of the repository's
services (`TwoFactorFlag.FlagAlwaysAgrees`). `OtpService` offers calls that no service makes; which of them
would keep the agreement is stated exactly (`TwoFactorFlag.LibraryKeepsFlagsIff`).

The repository's own description says that a refresh replaces the refresh token; the code returns only a new
access token, and the model follows the code. The token clean-up names its columns `created_at`,
`is_revoked` and `expires_at` while the table's columns are `createdAt`, `isRevoked` and `expiresAt`; the
model deletes either nothing or the rows the statement means.

## Model

Rows whose member is a method of a class are refinement links: they tie a method that changes state step by step to
the specification function of its request. The results about the system are the rows that name lemmas.

| member | source | states |
|---|---|---|
| BookingModel.FirstDateRefusal | src/v1/booking/services/booking.service.ts:270-285 | no date refusal exactly when every room's check-in is not past and its check-out is later |
| BookingModel.FirstRoomRefusal | src/v1/booking/services/booking.service.ts:287-337 | no room refusal exactly when every room exists, is free, has the rate option of its type and enough beds |
| SequenceFacts.NoRepeatsIffDistinct | src/v1/booking/services/booking.service.ts:260-268 | the `indexOf` filter is empty exactly when no room id is repeated |
| Ids.SameKeyIff | src/v1/booking/dto/create-booking.dto.ts:13-22 | two spellings denote one id exactly when they differ in the case of letters only |
| BookingService.BookingService.ValidateRooms | src/v1/booking/services/booking.service.ts:256-349 | answers the refusal of the request, date checks of all rooms before any lookup |
| BookingService.BookingService.DoubleBooked | src/v1/booking/services/booking.service.ts:351-379 | true exactly when some requested room is taken for some requested night |
| BookingService.BookingService.Price | src/v1/booking/services/booking.service.ts:79-99 | the loop computes the rows, float total and guest count that the request stands for |
| BookingService.BookingService.Create | src/v1/booking/services/booking.service.ts:65-128 | the tables after the request are those of the specification, refusal included |
| BookingService.BookingService.PatchStatus | src/v1/booking/services/booking.service.ts:167-227 | the tables after the request are those of the specification, rooms included |
| BookingRequests.CreateAcceptedIff | src/v1/booking/services/booking.service.ts:256-349 | in every run the checks pass exactly for a list that repeats no spelling of a room, each room free on all its nights, priced for its type and large enough |
| BookingRequests.CreateStoresRequest | src/v1/booking/services/booking.service.ts:101-121 | an accepted request adds one PENDING booking with the guests of its own stays added up, and one stay per room as requested, and changes nothing else |
| BookingRequests.GuestSumAdds | src/v1/booking/services/booking.service.ts:80-88 | what the sum of guests is: nothing for no stay, a single stay's guests, and parts add up |
| BookingRequests.RoomRefusals | src/v1/booking/services/booking.service.ts:287-337 | which lookup refuses a room, in the order in which they are asked |
| BookingRequests.CreateRefusals | src/v1/booking/services/booking.service.ts:256-337 | the first room that fails the dates is reported before any lookup, and else the first that fails its lookups |
| BookingRequests.RepeatedRoomsRefused | src/v1/booking/services/booking.service.ts:260-268 | a repeated spelling is refused first, and exactly the repeated spellings are listed |
| BookingRequests.PatchAcceptedIff | src/v1/booking/services/booking.service.ts:381-407 | accepted exactly along an edge not to CONFIRMED, by an admin, or by the owner to cancel |
| BookingRequests.PatchRefusals | src/v1/booking/services/booking.service.ts:381-407 | which refusal a status request gets |
| BookingRequests.PatchMovesRooms | src/v1/booking/services/booking.service.ts:184-220 | exactly the booking's rooms become occupied or available, and only its status changes |
| BookingRequests.CreateStoredIff | src/v1/booking/services/booking.service.ts:101-121 | a checked request is stored exactly when key and reference are new, the caller is a stored user and the exact sum of price times nights is below the column's bound |
| BookingRequests.IntentAcceptedIff | src/v1/payment/services/payment.service.ts:61-132 | an intent is stored exactly when its checks pass, the gateway gives a new id and the caller is a stored user |
| BookingRequests.IntentRefusals | src/v1/payment/services/payment.service.ts:61-132 | which refusal an intent gets, gateway and table included |
| BookingRequests.AdminIntentIsLostIff | src/v1/payment/services/payment.service.ts:75-81 | an admin's intent is made at the gateway and then refused by the table exactly when the admin's id is no user's |
| BookingScenarios.AdminIntentIsLost | src/v1/payment/services/payment.service.ts:75-130 | a run after which an admin's intent for a user's booking is made and no row records it |
| BookingScenarios.EuroPriceChargedAsDollars | src/v1/booking/services/booking.service.ts:84-106 | a run after which a room listed at 100.00 EUR a night is booked for two nights at 200.00 USD |
| BookingScenarios.SpellingSellsTwice | src/v1/booking/services/booking.service.ts:256-268 | one accepted request from an empty hotel that spells a room in two letter cases sells the room twice for the same nights |
| BookingRequests.ListedPricesChargedIff | src/v1/booking/services/booking.service.ts:84-97 | listed prices are charged, amount and currency, exactly when all chosen rate options are in the booking's currency |
| BookingRuns.SplitHandlerIsWhole | src/v1/payment/services/payment.service.ts:158-190 | the three parts of the success handler in a row do what the whole does |
| BookingRuns.StepMoves | src/v1/booking/services/booking.service.ts:22-40 | any step keeps all bookings and stays, moves statuses along edges only and adds bookings only as PENDING |
| BookingRuns.EventsOnlyConfirm | src/v1/payment/services/payment.service.ts:145-211 | an event, whole or in parts, moves a booking from PENDING to CONFIRMED or not at all |
| BookingRuns.PatchConfirmsNone | src/v1/booking/services/booking.service.ts:381-407 | no status request of anyone confirms a booking |
| BookingRuns.StatusFollowsEdges | src/v1/booking/services/booking.service.ts:22-40 | over a run a booking starts PENDING and every change follows an edge |
| BookingRuns.BookingHistory | src/v1/booking/services/booking.service.ts:381-407 | at most three status changes and at most one confirmation per booking in any run |
| BookingRuns.BookingPersists | src/v1/booking/services/booking.service.ts:101-121 | a booking keeps everything but its status for ever, and stays are never removed |
| BookingRuns.ConfirmedWasPaid | src/v1/payment/services/payment.service.ts:158-190 | a booking that is CONFIRMED or later had one of its own payments COMPLETED earlier in the run |
| BookingRuns.AlwaysKeyed | src/v1/booking/entities/booking.entity.ts:29-57 | in every run bookings and payments belong to stored users and booking references are unique |
| Availability.OverlapIffSharedNight | src/v1/booking/services/booking.service.ts:309-314 | the overlap test is true exactly when two half-open stays share a night |
| Availability.AcceptedRequestIsProper | src/v1/booking/services/booking.service.ts:256-349 | an accepted request repeats no spelling of a room, has its nights in order, and names only free rooms |
| Availability.InsertIsSafeIff | src/v1/booking/services/booking.service.ts:101-121 | inserting a request with ordered nights is safe exactly when its rooms are free at that moment and it wants no room twice for a night |
| Availability.AlwaysSafeIff | src/v1/booking/services/booking.service.ts:256-379 | in every state of a run active stays of a room are pairwise apart exactly when no stored request wanted a room twice for a night |
| Availability.NoNightIsSoldTwiceIff | src/v1/booking/services/booking.service.ts:351-379 | no state of a run sells any night of any room to two active stays exactly when no stored request wanted a room twice for a night |
| Availability.CheckStaysValid | src/v1/booking/services/booking.service.ts:71-121 | a free request stays free under any steps other than creates |
| Availability.SerialisedInsertIsSafeIff | src/v1/booking/services/booking.service.ts:71-121 | check, any requests but creates, then insert: safe exactly when the request wants no room twice for a night |
| Availability.OverlappingCreatesSafeIff | src/v1/booking/services/booking.service.ts:71-121 | two requests both checked before both inserts are safe exactly when neither wants a room twice for a night, nor both do together |
| Availability.OverlappingCreatesClash | src/v1/booking/services/booking.service.ts:71-121 | two copies of one request that are both checked before both inserts sell a night twice |
| LateWrites.SplitCreateIsWhole | src/v1/booking/services/booking.service.ts:65-121 | check and insert in a row do what the whole create does |
| LateWrites.SplitPatchIsWhole | src/v1/booking/services/booking.service.ts:172-185 | read and save in a row do what the whole status request does |
| LateWrites.SplitCashIsWhole | src/v1/payment/services/payment.service.ts:213-251 | read, save and status write in a row do what the whole cash confirmation does |
| LateWrites.SplitIntentIsWhole | src/v1/payment/services/payment.service.ts:61-132 | checks and save in a row do what the whole intent does |
| LateWrites.RowsAreSafeIff | src/v1/booking/services/booking.service.ts:101-121 | inserting checked rows at a later moment is safe exactly when they are still free and take no night of a room twice |
| LateWrites.WriteIsSafeIff | src/v1/booking/services/booking.service.ts:172-185 | an unguarded status write is safe exactly when it ends the booking, finds it not ended, or finds its rooms not resold |
| LateWrites.LateRunSafeIff | src/v1/booking/services/booking.service.ts:65-185 | a run with creates, intents, status requests and cash confirmations split at their awaits stays safe exactly when no create wants a room twice for a night and each late write is harmless |
| LateScenarios.LateCashSellsTwice | src/v1/payment/services/payment.service.ts:213-251 | a run in which a cash confirmation revives a cancelled booking and a room is sold twice |
| LatePayments.PendingOnceIff | src/v1/payment/services/payment.service.ts:83-132 | a booking has at most one pending payment throughout a run of split requests exactly when each one that is saved finds no other |
| LatePayments.CashOnceIff | src/v1/payment/services/payment.service.ts:213-245 | a booking is paid in cash at most once throughout such a run exactly when each cash payment that is saved finds no other |
| LateScenarios.TwoIntentsAreStored | src/v1/payment/services/payment.service.ts:83-132 | wherever an intent is accepted, two at a time leave two pending payments |
| LateScenarios.TwoCashPaymentsAreStored | src/v1/payment/services/payment.service.ts:213-245 | two cash confirmations at a time record the payment twice |
| Nights.ChargedAsStoredIff | src/v1/booking/services/booking.service.ts:409-415 | charged and stored nights agree exactly when the two times of day are less than half a day apart |
| Nights.BareDatesAgree | src/v1/booking/services/booking.service.ts:273-285 | for bare dates they agree, and the date checks compare the same instants |
| Nights.OneNightApartAtMost | src/v1/booking/services/booking.service.ts:409-415 | with one offset they differ by one night at most |
| Nights.NightsCanDiffer | src/v1/booking/dto/create-booking.dto.ts:23-35 | accepted date-times that store two nights and charge one, and that store none and charge one |
| Nights.OffsetsCountBack | src/v1/booking/services/booking.service.ts:409-415 | how an instant follows from a text's day, time of day and offset |
| Availability.RoomCapacity | src/v1/booking/services/booking.service.ts:299-315 | the nights a room sells in a window are at most the window's length |
| Availability.WindowCapacityIff | src/v1/booking/services/booking.service.ts:351-379 | no state of a run sells more than rooms times nights, in any window and for any rooms, exactly when no stored request wanted a room twice for a night |
| Money.StoredTotalIsExact | src/v1/booking/services/booking.service.ts:79-87 | storing the float total keeps exactly the sum of price times nights |
| Money.StoredRoomIsExact | src/v1/booking/services/booking.service.ts:82-98 | storing a room's floats keeps exactly its price and price times nights |
| Money.StripeAmountIsExact | src/v1/payment/services/payment.service.ts:42-43 | the gateway is asked for exactly the stored number of cents |
| Money.HalfCentUpTo | src/v1/booking/services/booking.service.ts:106 | up to 4000 rooms and totals that fit the column the float error stays below half a cent |
| Money.AcceptedTotalFits | src/v1/booking/services/booking.service.ts:106 | a total the column accepts came from an exact total below the column's bound |
| PaymentTable.CashIdDeterminesBooking | src/v1/payment/services/payment.service.ts:213-258 | the made-up id of a cash payment determines its booking |
| PaymentTable.CashIdText | src/v1/payment/services/payment.service.ts:233 | the id spells out the booking and the millisecond in decimal |
| PaymentTable.AlwaysSound | src/v1/payment/services/payment.service.ts:83-130 | in every run one pending and one cash payment per booking at most, and amount and currency equal the booking's |
| PaymentTable.CashAcceptedIff | src/v1/payment/services/payment.service.ts:213-251 | in every run a cash payment goes through exactly for a PENDING booking, which it confirms and pays in full |
| PaymentTable.LastEventWins | src/v1/payment/services/payment.service.ts:158-211 | whatever is duplicated, reordered, split or in between, a payment has the status of the event that was saved last |
| PaymentEvents.SuccessDoes | src/v1/payment/services/payment.service.ts:158-190 | a success event completes a stored payment that is not COMPLETED and confirms exactly its PENDING booking; nothing else changes |
| PaymentEvents.FailureDoes | src/v1/payment/services/payment.service.ts:192-211 | a failure event marks a stored payment FAILED and changes nothing else |
| PaymentEvents.LoadDoes | src/v1/payment/services/payment.service.ts:158-170 | the split handler goes on exactly for a stored payment that is not COMPLETED |
| PaymentEvents.SaveDoes | src/v1/payment/services/payment.service.ts:171-181 | its save completes the payment it has read and changes no booking |
| PaymentEvents.ConfirmDoes | src/v1/payment/services/payment.service.ts:182-189 | its last part confirms the booking exactly if it is PENDING then, and changes no payment |
| PaymentEvents.SuccessConfirms | src/v1/payment/services/payment.service.ts:158-190 | in any run a PENDING booking is CONFIRMED right after the success event of its payment |
| PaymentTable.AcceptedBookingIsExact | src/v1/booking/services/booking.service.ts:79-121 | an accepted booking's total is the sum of its stored rows and of price times nights |
| PaymentTable.ExactToTheGateway | src/v1/payment/services/payment.service.ts:99 | from the request to the gateway, through any run, the amount is the exact sum in cents |
| PaymentService.PaymentService.CreatePaymentIntent | src/v1/payment/services/payment.service.ts:61-143 | the tables are those of the specification, and the cached lists stay coherent |
| PaymentService.PaymentService.HandleStripeWebhook | src/v1/payment/services/payment.service.ts:145-156 | dispatches the event; the tables are those of the specification |
| PaymentService.PaymentService.HandlePaymentSuccess | src/v1/payment/services/payment.service.ts:158-190 | completes the payment once, confirms a PENDING booking, drops the cached lists |
| PaymentService.PaymentService.HandlePaymentFailure | src/v1/payment/services/payment.service.ts:192-211 | marks the payment failed whatever its status, drops the cached lists |
| PaymentService.PaymentService.ConfirmCashPayment | src/v1/payment/services/payment.service.ts:213-258 | records the payment and confirms the booking as specified, drops the cached lists |
| PaymentService.PaymentService.FindAll | src/v1/payment/services/payment.service.ts:260-333 | the page is what the uncached query would give now, and shows what the caller may see and the filter asks for |
| PaymentService.ListShowsWanted | src/v1/payment/services/payment.service.ts:286-318 | a page shows a customer no one else's payments and only what the filter asks for, and all of it when asked for everything |
| CacheKeys.SortIsAscending | src/v1/hotel/services/hotel.service.ts:33 | sorting the keys lists each name once, in the order of their characters' numbers |
| CacheKeys.ObjectTextIsInjective | src/v1/hotel/services/hotel.service.ts:33 | two member lists serialise alike exactly when they are equal |
| CacheKeys.StableIsCanonical | src/v1/hotel/services/hotel.service.ts:33 | two filters serialise alike exactly when they agree on every defined field, in any insertion order |
| CacheKeys.FieldsAreDefined | src/v1/hotel/services/hotel.service.ts:33 | the fields of a filter are its defined properties with their values |
| CacheKeys.HotelListKeyIsCanonical | src/v1/hotel/services/hotel.service.ts:32-35 | the key is equal exactly for the same role and fields, and is not the registry key |
| CacheKeys.HotelDetailKeyIsCanonical | src/v1/hotel/services/hotel.service.ts:37-43 | a detail key names the hotel and the role |
| CacheKeys.HotelKeysApart | src/v1/hotel/services/hotel.service.ts:37-43 | no detail key is a list key or the registry key |
| CacheKeys.PaymentListKeyIsCanonical | src/v1/payment/services/payment.service.ts:33-40 | the key is equal exactly for the same caller and fields, and is not the registry key |
| CacheKeys.RoomListKeyIsCanonical | src/v1/room/services/room.service.ts:25-31 | list and registry keys of all hotels are told apart, and equal exactly for the same hotel and fields |
| QueryCache.KeysNameQueries | src/v1/payment/services/payment.service.ts:33-40 | over all three services keys are equal exactly for the same query and are never a registry key |
| QueryCache.FillKeepsCoherent | src/v1/hotel/services/hotel.service.ts:186-193 | storing a fresh answer and listing its key keeps every answer fresh and listed |
| QueryCache.ReadIsFreshIff | src/v1/hotel/services/hotel.service.ts:83-90 | a read answers what the database would exactly when what is stored for it is right, and keeps right what is right |
| CacheRuns.SplitReadIsWhole | src/v1/hotel/services/hotel.service.ts:83-193 | the four parts of a read in a row store and list its answer |
| CacheRuns.ListsRightIff | src/v1/hotel/services/hotel.service.ts:186-193 | over runs of reads split at their awaits and writes, every stored list is right throughout exactly when each answer is stored while its rows are as read and each write finds the entries it changes in its registry |
| CacheRuns.LateStoreIsStale | src/v1/hotel/services/hotel.service.ts:186-193 | a read that stores its answer after a write has changed its rows leaves a stale list |
| CacheRuns.LostListingIsStale | src/v1/hotel/services/hotel.service.ts:286-296 | two reads that register at once lose the first key, whose list the next write of its rows leaves stale |
| QueryCache.InvalidateKeepsCoherent | src/v1/hotel/services/hotel.service.ts:298-304 | deleting what a registry lists makes the cache coherent with the answers after a write |
| QueryCache.KeyedCache.Fill | src/v1/hotel/services/hotel.service.ts:186-193 | the entries afterwards hold the answer and its registration, nothing else changed |
| QueryCache.KeyedCache.RegisterListKey | src/v1/hotel/services/hotel.service.ts:286-296 | a key is appended to the registry unless it is listed |
| QueryCache.KeyedCache.InvalidateLists | src/v1/hotel/services/hotel.service.ts:298-304 | exactly the listed keys and the registry are gone |
| TimedCache.AnswersAreRecent | src/v1/payment/services/payment.service.ts:326-333 | in every state of every run a read returns what was true no longer ago than the time to live |
| TimedCache.FreshAfterEveryWriteIff | src/v1/payment/services/payment.service.ts:352-374 | in every state of every run the next write leaves reads of a query fresh, whatever it writes, if and only if the key is unstored or listed |
| TimedCache.StaleOnlyIfUnlisted | src/v1/payment/services/payment.service.ts:352-374 | in every state of every run a read whose key is unstored or listed is fresh already; the exact condition under writes is the row above |
| TimedCache.FreshWithoutExpiry | src/v1/payment/services/payment.service.ts:260-374 | until the first entry can expire every read returns the fresh answer |
| TimedCache.RefilledEntryGoesStale | src/v1/payment/services/payment.service.ts:352-363 | in every setup with two keys a run ends with a read from before the last write |
| HotelService.HotelService.FindAll | src/v1/hotel/services/hotel.service.ts:76-193 | answers the stored page, or what the uncached query gives and stores it; the answer is what the uncached query gives exactly when the stored page is right |
| HotelService.HotelService.FindOne | src/v1/hotel/services/hotel.service.ts:195-225 | answers the hotel stored for this spelling, or what a lookup finds and stores it; what is not found is not cached; the answer is what a lookup finds exactly when the stored hotel is right |
| HotelService.ExpiryKeepsDetailsFresh | src/v1/hotel/services/hotel.service.ts:221-222 | whichever entries expire, a cached hotel is still the one a lookup would find |
| HotelService.HotelService.Create | src/v1/hotel/services/hotel.service.ts:57-74 | adds the hotel for admins only and drops every list, after which all lists are right |
| HotelService.HotelService.Update | src/v1/hotel/services/hotel.service.ts:227-264 | merges the named fields, drops every list and the two entries of this spelling of the hotel |
| HotelService.HotelService.Remove | src/v1/hotel/services/hotel.service.ts:266-282 | removes the hotel unless it has room types, drops every list and the two entries of this spelling |
| HotelService.DetailAfterWriteIff | src/v1/hotel/services/hotel.service.ts:37-43 | after a write through one spelling a cached hotel that was right is right exactly when it was cached for this spelling and is gone, names another hotel, or shows the same |
| HotelService.RemovalMissesOtherSpelling | src/v1/hotel/services/hotel.service.ts:266-282 | a removed hotel is still found in the cache by another spelling of its id |
| DetailRuns.DetailsRightIff | src/v1/hotel/services/hotel.service.ts:195-282 | over runs of split lookups and writes through any spellings every cached hotel is right throughout exactly when each step is harmless |
| DetailRuns.SplitLookupIsWhole | src/v1/hotel/services/hotel.service.ts:195-225 | the two parts of a lookup in a row store what it finds |
| DetailRuns.StepsDo | src/v1/hotel/services/hotel.service.ts:57-282 | what the steps do to the tables |
| HotelService.HotelService.OtherServiceWrites | src/v1/hotel/services/hotel.service.ts:123-222 | a write to the joined rows deletes nothing; lists stay right if no visible hotel begins or ceases to match a stored filter, cached hotels exactly if none of their rows change |
| ListContents.HotelRowsAreWanted | src/v1/hotel/services/hotel.service.ts:92-184 | the query finds exactly the hotels that the caller may see and of which one room type and rate option meet the filter |
| ListContents.HotelPageShowsWanted | src/v1/hotel/services/hotel.service.ts:92-190 | a page shows such hotels only, and all of them when asked for everything; a guest is shown no inactive one |
| ListContents.FoundHotel | src/v1/hotel/services/hotel.service.ts:195-222 | a lookup finds a stored hotel with its own joined rows, for a guest only while it is active |
| ListContents.MergedHotel | src/v1/hotel/services/hotel.service.ts:227-250 | an update sets the named fields and keeps the others |
| HotelService.OfferWriteRightIff | src/v1/hotel/services/hotel.service.ts:123-184 | after such a write the stored lists are right, however paged, exactly when no visible hotel begins or ceases to offer what a stored filter asks for |
| HotelService.PriceChangeLeavesListRightIff | src/v1/hotel/services/hotel.service.ts:174-184 | a stored list up to a price survives a price change exactly when old and new price lie on one side of it |
| HotelService.UnpagedListStaleIff | src/v1/hotel/services/hotel.service.ts:123-184 | an unpaged list is stale after such a write exactly when some visible hotel begins or ceases to match it |
| HotelService.PriceRiseLeavesListStale | src/v1/hotel/services/hotel.service.ts:174-184 | a stored list of all hotels up to a price still shows a hotel that has become dearer |
| RoomModel.BulkAcceptedIff | src/v1/room/services/room.service.ts:149-205 | a bulk request passes exactly when types belong to the hotel and are spelled in one way each, and numbers are new and not repeated |
| RoomModel.BulkAddsAllOrNone | src/v1/room/services/room.service.ts:149-205 | all requested rooms are added, each as requested, or none |
| RoomModel.AlwaysConsistent | src/v1/room/services/room.service.ts:129-285 | over any run room numbers are unique per hotel, every room's type belongs to its hotel and booked rooms stay |
| RoomRequests.CreateDoes | src/v1/room/services/room.service.ts:129-147 | which refusal a new room gets, and the room as it is stored, field by field |
| RoomRequests.UpdateDoes | src/v1/room/services/room.service.ts:207-266 | which refusal an update gets, which fields it sets, and that no other room changes |
| RoomRequests.RemoveDoes | src/v1/room/services/room.service.ts:268-285 | which refusal a removal gets, and that exactly the room goes |
| RoomRequests.BulkRefusals | src/v1/room/services/room.service.ts:149-191 | which refusal a bulk request gets |
| RoomRequests.BulkDoes | src/v1/room/services/room.service.ts:193-205 | the rooms of a bulk request as they are stored, field by field |
| RoomRequests.OtherServicesDo | src/v1/room/services/room-type.service.ts:148-165 | a room type goes only while no room is of it |
| RoomService.RoomService.FindAllByHotel | src/v1/room/services/room.service.ts:50-127 | answers the page stored for this spelling of the hotel, or what the uncached query gives and stores it; the answer is what the uncached query gives exactly when the stored page is right |
| ListContents.RoomRowsAreWanted | src/v1/room/services/room.service.ts:72-91 | the query finds exactly the hotel's rooms that the filter asks for, each with its type |
| ListContents.RoomPageShowsWanted | src/v1/room/services/room.service.ts:72-120 | a page shows such rooms only, and all of them when asked for everything |
| RoomService.RoomService.CreateRoom | src/v1/room/services/room.service.ts:129-147 | the table is that of the specification; exactly the lists of this spelling of the hotel are dropped |
| RoomService.RoomService.CheckBulk | src/v1/room/services/room.service.ts:149-190 | answers the refusal of a bulk request |
| RoomService.RoomService.BulkCreateRooms | src/v1/room/services/room.service.ts:149-205 | the table is that of the specification; exactly the lists of this spelling of the hotel are dropped |
| RoomService.RoomService.UpdateRoom | src/v1/room/services/room.service.ts:207-266 | the table is that of the specification; exactly the lists of this spelling of the hotel are dropped |
| RoomService.RoomService.RemoveRoom | src/v1/room/services/room.service.ts:268-285 | the table is that of the specification, a room with booking rows stays; exactly the lists of this spelling of the hotel are dropped |
| RoomService.WriteThroughIff | src/v1/room/services/room.service.ts:25-31 | after a write through one spelling a list that was right is right exactly when it was asked for with this spelling or shows the same page |
| RoomService.WriteThroughRightIff | src/v1/room/services/room.service.ts:287-310 | after such a write the stored lists are right, however paged, exactly when each was asked for with this spelling or holds no room that the write changes |
| RoomService.OneSpellingKeepsCoherent | src/v1/room/services/room.service.ts:287-310 | if a hotel's lists are asked for with one spelling only, its writes leave every list right |
| RoomService.WriteThroughIsHarmlessIff | src/v1/room/services/room.service.ts:287-310 | the same as a step of a run of the cache |
| RoomService.RemovalMissesOtherSpelling | src/v1/room/services/room.service.ts:268-285 | a list asked for with another spelling still shows a room that has been removed |
| RoomService.RoomService.BookingWritesStatus | src/v1/booking/services/booking.service.ts:187-220 | a booking's status change writes room status and drops no list; the cache stays right if no changed room matches a stored filter before or after, and does not if one matches an unpaged list |
| RoomService.RoomService.RoomTypesChange | src/v1/room/services/room.service.ts:72-91 | a change of the joined room types drops no list; the cache stays right if no room that matches a stored filter is of a changed type |
| RoomService.StatusWriteRightIff | src/v1/booking/services/booking.service.ts:187-220 | after a room status write the stored lists are right, however paged, exactly when no stored filter matches a changed room before or after |
| RoomService.TypeWriteRightIff | src/v1/room/services/room.service.ts:72-91 | after a write to the joined types the stored lists are right, however paged, exactly when no matching room is of a changed type |
| RoomService.UnpagedListStaleIff | src/v1/room/services/room.service.ts:85-120 | an unpaged list is stale after a status write exactly when a changed room matched or matches it |
| RoomService.CheckInLeavesListStale | src/v1/booking/services/booking.service.ts:187-202 | the stored list of available rooms still shows a room whose guest has checked in |
| QueryCache.ReadsThenWriteIff | src/v1/room/services/room.service.ts:56-126 | reads from an empty cache, then a write that deletes nothing: right exactly when no read query's answer changes |
| OtpModel.Judge | src/v1/otp/services/otp.service.ts:67-89 | accepted exactly when in time, within its attempts and right; each comparison costs one attempt |
| OtpRequests.EnableDoes | src/v1/auth/services/two-factor.service.ts:49-95 | who gets a code, which refusal the others get, and the record field by field: pending, three attempts, ten minutes |
| OtpRequests.SendDoes | src/v1/auth/services/two-factor.service.ts:188-235 | likewise for a login code, which an admin with a verified record is refused |
| OtpRequests.ResetSendDoes | src/v1/auth/services/password-reset.service.ts:69-116 | likewise for an admin's reset code |
| OtpRequests.UserResetSendDoes | src/v1/auth/services/password-reset.service.ts:259-306 | likewise for a user's text-message record |
| OtpRequests.CreateCallDoes | src/v1/otp/services/otp.service.ts:25-49 | the record that the library creates, field by field |
| OtpRequests.LooksMeans | src/v1/auth/services/password-reset.service.ts:118-143 | which record each path finds, by owner, purpose, status, code and time of creation |
| OtpRequests.CheckDoes | src/v1/auth/services/two-factor.service.ts:97-149 | what a check answers and does to the record it finds; nothing else changes but the flag of an admin who verifies |
| OtpRequests.EmptyCheckDoes | src/v1/auth/services/two-factor.service.ts:97-111 | a check that finds no record changes nothing and accepts nothing |
| OtpRequests.DisableDoes | src/v1/auth/services/two-factor.service.ts:151-186 | disabling needs the password and expires exactly the admin's verified two-factor records |
| OtpRequests.CleanupDoes | src/v1/otp/services/otp.service.ts:96-106 | exactly the expired and used records more than seven days old are deleted |
| OtpRequests.LibraryWritesDo | src/v1/otp/services/otp.service.ts:91-124 | what marking and bulk expiry change |
| OtpRequests.AcceptedWithinTenMinutes | src/v1/auth/services/two-factor.service.ts:59-117 | in any run a code is accepted only within ten minutes of the step that issued it, and compared at most three times |
| OtpRequests.AcceptedOnItsPath | src/v1/auth/services/two-factor.service.ts:97-135 | in any run a code presented first, unrivalled and on its own path within those ten minutes is accepted |
| OtpRequests.AccountStepsDo | src/v1/auth/services/user-auth.service.ts:565-591 | accounts come and go without touching a record |
| OtpServices.OtpDatabase.FindNewest | src/v1/otp/services/otp.service.ts:51-65 | finds a matching pending record with no later one, or nothing when there is none |
| OtpServices.OtpDatabase.Examine | src/v1/auth/services/two-factor.service.ts:113-135 | the sequence every verifying service runs on its record: the record and the outcome are those of the judgement |
| OtpServices.OtpService.Create | src/v1/otp/services/otp.service.ts:25-49 | stores a pending record with the given or default lifetime and limit |
| OtpServices.OtpService.FindPending | src/v1/otp/services/otp.service.ts:51-65 | the newest pending record of the purpose and owner, or nothing |
| OtpServices.OtpService.Verify | src/v1/otp/services/otp.service.ts:67-89 | the record and the outcome are those of the judgement |
| OtpServices.OtpService.MarkRecordUsed | src/v1/otp/services/otp.service.ts:91-94 | only this record changes, to USED |
| OtpServices.OtpService.ExpireAllRecords | src/v1/otp/services/otp.service.ts:108-124 | exactly the selected records become EXPIRED |
| OtpServices.OtpService.CleanupExpiredOtpRecords | src/v1/otp/services/otp.service.ts:96-106 | exactly the EXPIRED and USED records older than seven days are gone |
| OtpServices.TwoFactorService.Enable | src/v1/auth/services/two-factor.service.ts:49-95 | issues a pending code for an existing admin with that e-mail, or changes nothing |
| OtpServices.TwoFactorService.Verify | src/v1/auth/services/two-factor.service.ts:97-149 | judges the newest pending code and turns the flag on exactly when it is accepted |
| OtpServices.TwoFactorService.Disable | src/v1/auth/services/two-factor.service.ts:151-186 | expires all verified records of the admin and turns the flag off |
| OtpServices.TwoFactorService.SendCode | src/v1/auth/services/two-factor.service.ts:188-235 | issues a code unless a verified record exists |
| OtpServices.TwoFactorService.ValidateLogin | src/v1/auth/services/two-factor.service.ts:237-274 | judges a pending record with this very code; a wrong code is never counted |
| OtpServices.PasswordResetService.AdminSend | src/v1/auth/services/password-reset.service.ts:69-116 | issues a pending reset code for an existing admin |
| OtpServices.PasswordResetService.Verify | src/v1/auth/services/password-reset.service.ts:118-164 | judges a pending reset record of the user, or failing that of the admin, with this id |
| OtpServices.PasswordResetService.UserSend | src/v1/auth/services/password-reset.service.ts:259-306 | issues a pending text-message record for an existing user |
| OtpServices.PasswordResetService.UserVerify | src/v1/auth/services/password-reset.service.ts:308-362 | judges the newest pending record by the gateway's word and keeps the accepted code |
| OtpRuns.StepMoves | src/v1/otp/services/otp.service.ts:67-124 | what any step of any service can do to one record |
| OtpRuns.ComparesIff | src/v1/auth/services/two-factor.service.ts:113-131 | on every path a code is compared exactly when the lookup gives the record, in time and within its attempts |
| OtpRuns.AcceptedIff | src/v1/auth/services/password-reset.service.ts:135-164 | on every path accepted exactly for the looked-up record, in time, within its limit, with the record's stored code or the gateway's word |
| OtpRuns.TextRecordAcceptedIff | src/v1/auth/services/password-reset.service.ts:118-164 | a user's text-message record is accepted exactly in time, within its limit, and if the gateway vouched or the path that compares stored codes is given the placeholder |
| OtpRuns.PlaceholderIsAccepted | src/v1/auth/services/password-reset.service.ts:289 | a run in which a text-message record is accepted without the gateway's word |
| OtpRuns.WrongCodeCostsIff | src/v1/auth/services/two-factor.service.ts:237-264 | a wrong code in time and within the limit costs an attempt on every path but the login, where nothing changes |
| OtpRuns.WrongLoginsAreFree | src/v1/auth/services/two-factor.service.ts:237-250 | any number of wrong login codes leaves the record and its count as they are |
| OtpRuns.AcceptedAtMostOnce | src/v1/auth/services/two-factor.service.ts:97-149 | over any run and all services a record is accepted at most once, and not after leaving PENDING |
| LateCodes.CounterCountsIff | src/v1/auth/services/password-reset.service.ts:118-164 | with lookup and save of verifications interleaved the counter counts the comparisons throughout exactly when each save finds the counter as it was looked up |
| LateCodes.SaveDoes | src/v1/otp/services/otp.service.ts:67-89 | a save overwrites the record with the judged copy, field by field |
| LateCodes.SplitVerificationIsWhole | src/v1/otp/services/otp.service.ts:67-89 | lookup and save in a row judge the record as the whole does |
| LateCodes.AcceptedOnceIff | src/v1/otp/services/otp.service.ts:67-89 | a code is accepted at most once and for good throughout exactly when no verification looked up before an acceptance compares after it |
| LateCodes.AcceptedTwice | src/v1/otp/services/otp.service.ts:67-89 | two verifications that both look a record up first are both accepted, and the counter says one |
| LateCodes.PendingAgain | src/v1/otp/services/otp.service.ts:67-89 | a wrong code looked up before an acceptance makes the accepted record pending again |
| OtpRuns.AttemptsCountComparisons | src/v1/auth/services/two-factor.service.ts:119-130 | the stored counter is the number of comparisons made, which wrong login codes are not, and stays within the limit |
| OtpRuns.RecordHistory | src/v1/otp/services/otp.service.ts:67-94 | a record keeps owner, limit and deadline, never returns to PENDING, and is not compared past its limit even after deletion |
| OtpRuns.ThreeComparisonsInTenMinutes | src/v1/auth/services/two-factor.service.ts:59-71 | a code the services issue is compared at most three times and accepted only within ten minutes; wrong login codes are not compared |
| TwoFactorFlag.FlagAlwaysAgrees | src/v1/auth/services/two-factor.service.ts:137-171 | in every run of the repository's own services the flag is on exactly when a VERIFIED two-factor record exists |
| TwoFactorFlag.FlagAlwaysAgreesIff | src/v1/auth/services/two-factor.service.ts:137-171 | with library calls too, it agrees in every state if and only if each such call is harmless |
| TwoFactorFlag.LibraryKeepsFlagsIff | src/v1/otp/services/otp.service.ts:67-124 | a library call keeps the agreement exactly when it verifies no record of an admin whose flag is off and takes no admin's last verified record |
| TwoFactorFlag.CodeRefusedIffEnabled | src/v1/auth/services/two-factor.service.ts:194-206 | a login code is refused exactly while the flag is on |
| TwoFactorFlag.LibraryVerifyBreaksAgreement | src/v1/otp/services/otp.service.ts:67-89 | what a harmful call, which the repository does not make, would do |
| TokenServices.TokenService.GenerateRefreshToken | src/v1/auth/services/token.service.ts:39-65 | returns the token signed for the owner and stores one unrevoked row for thirty days |
| TokenServices.TokenService.RefreshAccessToken | src/v1/auth/services/token.service.ts:67-137 | answers for an unrevoked row of the token; only an expired one is changed |
| TokenServices.TokenService.RevokeAllTokens | src/v1/auth/services/token.service.ts:139-165 | exactly the owner's rows are revoked |
| TokenServices.TokenService.RevokeByToken | src/v1/auth/services/token.service.ts:183-197 | revokes one row that bears the token, if any does |
| TokenServices.TokenService.CleanupExpiredRefreshTokens | src/v1/auth/services/token.service.ts:167-181 | nothing is deleted, or exactly the revoked or expired rows older than seven days, as the named columns resolve or not |
| TokenServices.AuthService.Login | src/v1/auth/services/admin-auth.service.ts:100-113 | revokes the owner's tokens, then issues one |
| TokenServices.AuthService.ChangePassword | src/v1/auth/services/user-auth.service.ts:528-563 | an accepted change sets the password and revokes all of the owner's tokens |
| TokenServices.AuthService.UserResetPassword | src/v1/auth/services/password-reset.service.ts:375-410 | an accepted reset sets the user's password and revokes all of the user's tokens |
| TokenServices.AuthService.ResetPassword | src/v1/auth/services/password-reset.service.ts:178-257 | sets the password of the user, or failing that of the admin, with this id and leaves every token as it is |
| TokenServices.AuthService.SetUpPassword | src/v1/auth/services/user-auth.service.ts:385-412 | a registering user's password is set and every token left as it is |
| TokenServices.AuthService.UpdateAccount | src/v1/auth/services/user-auth.service.ts:472-525 | an update that names a password sets it and leaves every token as it is |
| TokenServices.AuthService.LogOut | src/v1/auth/services/user-auth.service.ts:593-602 | revokes a row of the token and all rows of the user with the caller's id |
| TokenServices.AuthService.RemoveProfile | src/v1/auth/services/user-auth.service.ts:565-591 | revokes the user's tokens and marks the account deleted |
| TokenRuns.OneLiveToken | src/v1/auth/services/admin-auth.service.ts:108-113 | in every reachable state an account has at most one unrevoked token |
| LateLogins.SplitLoginIsWhole | src/v1/auth/services/admin-auth.service.ts:108-113 | revoke and store in a row do what the whole login does |
| LateLogins.OneLiveTokenIff | src/v1/auth/services/admin-auth.service.ts:108-113 | with logins split at their await an account has at most one live token throughout exactly when each token that is stored finds none |
| LateLogins.TwoLoginsLeaveTwo | src/v1/auth/services/admin-auth.service.ts:108-113 | two logins that both revoke first leave two live tokens |
| TokenRuns.RevokedForGood | src/v1/auth/services/token.service.ts:139-197 | a revoked row stays revoked for as long as it exists |
| TokenRuns.RefreshGoesBackToLogin | src/v1/auth/services/token.service.ts:67-137 | a successful refresh names the token's subject, an existing account whose latest login issued it within thirty days |
| TokenRequests.LoginDoes | src/v1/auth/services/admin-auth.service.ts:100-113 | an allowed login revokes the account's tokens and stores one for thirty days, field by field |
| TokenRequests.RefreshDoes | src/v1/auth/services/token.service.ts:67-137 | what a refresh answers for the row it finds, and that only an expired row changes |
| TokenRequests.PasswordDoes | src/v1/auth/services/user-auth.service.ts:528-563 | when a password is set, and which routes revoke which tokens |
| TokenRequests.ResetIsOf | src/v1/auth/services/password-reset.service.ts:178-243 | the general reset is of the user with this id, or failing that of the admin |
| TokenRequests.LogoutDoes | src/v1/auth/services/user-auth.service.ts:593-602 | a logout revokes the found row and the rows of the user with the caller's id, and nothing else |
| TokenRequests.DeletionDoes | src/v1/auth/services/user-auth.service.ts:565-591 | a deletion revokes the user's tokens and marks the account |
| TokenRequests.SweepDoes | src/v1/auth/services/token.service.ts:167-181 | the clean-up deletes nothing, or exactly the dead rows more than seven days old |
| TokenRequests.TokenLivesThirtyDays | src/v1/auth/services/token.service.ts:67-137 | in any run a login's unrevoked token refreshes until thirty days after it |
| TokenRequests.RefreshWithinThirtyDays | src/v1/auth/services/token.service.ts:67-137 | and a refresh succeeds only for a token issued at most thirty days before |
| TokenRequests.NoRefreshAfterDeletion | src/v1/auth/services/user-auth.service.ts:565-591 | after a deletion nothing refreshes for the account |
| TokenRuns.NoRefreshUntilLogin | src/v1/auth/services/user-auth.service.ts:552-602 | after a revoke-all a refresh for the account needs a later login |
| TokenRuns.LiveTokenRefreshes | src/v1/auth/services/token.service.ts:67-137 | an unexpired live token of an existing account refreshes, whichever row is found |
| TokenRuns.PasswordEndsSessionIff | src/v1/auth/services/password-reset.service.ts:178-257 | an accepted password change ends the session exactly when the owner changed it or a user reset it |
| TokenRuns.TokenSurvivesPasswordIff | src/v1/auth/services/user-auth.service.ts:528-563 | in any run the token from before an accepted password change still refreshes, whichever row is found, exactly when neither the owner changed the password nor a user reset it |
| TokenRuns.SessionOutlivesReset | src/v1/auth/services/password-reset.service.ts:178-257 | after a reset that revokes nothing the token from before it still refreshes |
| TokenRuns.LogoutMissesIff | src/v1/auth/services/token.service.ts:183-197 | a logout leaves the caller's token alive exactly for an admin whose token another found row bears |
| TokenRuns.LogoutAlwaysEndsIff | src/v1/auth/services/token.service.ts:183-197 | whichever row is found, a logout ends the session exactly for a user, or when no other row bears the token |
| TokenRuns.SameTokenIffSameSecond | src/v1/auth/services/token.service.ts:39-65 | two rows of an account bear one token exactly when their logins fell in one second |
| TokenRuns.AdminLogoutCanMiss | src/v1/auth/services/user-auth.service.ts:593-602 | a run in which an admin logs out and the token still refreshes |
| Transactions.Runtime.Execute | src/common/transaction/transactional.decorator.ts:14-32 | transactions never nest, the context is restored, and the database changes as specified |
| Transactions.Runtime.RunInContext | src/common/transaction/transaction.context.ts:6-18 | the manager is in the context for the method only, whether or not it throws |
| Transactions.AllOrNothing | src/common/transaction/transactional.decorator.ts:14-32 | one transaction per outermost call; all writes commit in order exactly when it returns normally |
| Transactions.NestedCallsJoin | src/common/transaction/transactional.decorator.ts:18-21 | inside a transaction decorators make no difference at any depth |
| Transactions.DecoratingTwiceIsOnce | src/common/transaction/transactional.decorator.ts:18-21 | a decorated method that only calls a decorated one behaves as it |
| Transactions.CaughtFailureKeepsWrites | src/common/transaction/transactional.decorator.ts:18-32 | a caught inner failure rolls back nothing; its writes commit with the outer call |
| Transactions.UndecoratedWritesNothing | src/common/transaction/transaction.context.ts:11-17 | without a decorated call nothing is written |
| Transactions.CommittedStays | src/common/transaction/transactional.decorator.ts:28-31 | what one outermost call committed stays, whatever comes after |
| Transactions.OutermostCallsDecide | src/common/transaction/transactional.decorator.ts:14-32 | any program commits exactly what its outermost calls commit, one transaction each, in order |
| Transactions.InsideLaws | src/common/transaction/transactional.decorator.ts:18-21 | inside a transaction a throw stops what follows and starts the nearest handler, and writes add up in order |
| Transactions.OutsideLaws | src/common/transaction/transaction.context.ts:11-17 | outside one writing throws, and committed parts stay |
| TransactionSteps.RunsAsSpecified | src/common/transaction/transactional.decorator.ts:14-32 | step by step, with a stack of what is left to do, a program writes and throws exactly as specified |
| TransactionSteps.CallCommitsItsSteps | src/common/transaction/transactional.decorator.ts:23-32 | an outermost call commits what its steps wrote if they end in a return, and nothing if they end in a throw |
| TransactionSteps.ThrowsIffEscapes | src/common/transaction/transactional.decorator.ts:28-31 | a program throws exactly when a throw is reached outside every handled body |
| TransactionSteps.EscapedThrowCommitsNothing | src/common/transaction/transactional.decorator.ts:28-31 | a call from which a throw escapes commits nothing |
| TransactionSteps.NothingFollowsAThrow | src/common/transaction/transactional.decorator.ts:28-31 | what follows an escaping throw makes no difference |
| TransactionSteps.EveryCallEnds | src/common/transaction/transactional.decorator.ts:22-38 | every program runs to an end, so an execution always has a result |
| Calendar.DayToDateAndBack | src/common/utils/date-time.util.ts:163-176 | every day number has exactly one calendar date, computed from it |
| Calendar.DateToDayAndBack | src/common/utils/date-time.util.ts:101-126 | every calendar date comes back from its day number |
| Calendar.DayNumbersAreChronological | src/common/utils/date-time.util.ts:101-126 | day numbers are ordered as year, month and day are |
| Calendar.TextRoundTrip | src/common/utils/date-time.util.ts:101-108 | a date written as YYYY-MM-DD is read back |
| Calendar.FieldsRoundTrip | src/common/utils/date-time.util.ts:194-200 | a bare date is read and written back unchanged and has no timezone information |
| Calendar.RangeHoldsExactly | src/common/utils/date-time.util.ts:101-126 | the range of a bare date holds exactly the instants with that date in Myanmar |
| Calendar.RangeIsDayRange | src/common/utils/date-time.util.ts:163-181 | the range equals the day range of an instant exactly when the instant has that date |
| Calendar.RangesTile | src/common/utils/date-time.util.ts:163-181 | day ranges leave no gap and do not overlap |
| Calendar.TodayIffSameDate | src/common/utils/date-time.util.ts:186-190 | today is decided by the two Myanmar dates alone |
| Calendar.SpanHoldsExactly | src/common/utils/date-time.util.ts:101-126 | a span of two bare dates selects exactly the instants with dates in the span |
| Calendar.MonthsAndLeapYears | src/common/utils/date-time.util.ts:101-126 | month lengths and leap years are those of the Gregorian calendar |
| Calendar.KnownDays | src/common/utils/date-time.util.ts:101-126 | day numbers count from 1 January 1970 |
| Calendar.DaysStartAtHalfPastFive | src/common/utils/date-time.util.ts:14 | a day in Myanmar starts at 17:30 UTC and lasts to the millisecond before the next |
| Calendar.KnownRange | src/common/utils/date-time.util.ts:101-126 | the range of 1 September 2025 in milliseconds |
| Calendar.KnownTexts | src/common/utils/date-time.util.ts:101-108 | how known dates, also ones that no calendar holds, are written |
| Calendar.KnownMidnight | src/common/utils/date-time.util.ts:163-176 | the two milliseconds around a midnight in Myanmar are of different dates |
| Calendar.CarriedDates | src/common/utils/date-time.util.ts:101-126 | fields out of bounds carry over, and two-digit years are of the last century |
| Calendar.TextsWithTimezone | src/common/utils/date-time.util.ts:194-200 | what counts as timezone information |
| Calendar.InstantsAreTaken | src/common/utils/date-time.util.ts:101-126 | a text with timezone information is taken as its instant at both ends |
| SequenceFacts.CountMatchesIff | src/v1/auth/services/role.service.ts:223-242 | the length check passes exactly for pairwise different known ids |
| Links.ReplaceAcceptedIff | src/v1/room/services/room-type.service.ts:196-213 | a replacement is accepted exactly for different known ids, however spelled; a refusal with nothing missing is a repetition in stored spelling |
| Links.ReplaceLeavesExactly | src/v1/room/services/room-type.service.ts:196-226 | the owner keeps exactly the given items, others keep their rows, pairs stay unique |
| Links.LastReplaceWins | src/v1/auth/services/role.service.ts:171-177 | of two replacements the second decides alone |
| Links.AddAcceptedIff | src/v1/rate-option/services/rate-option.service.ts:142-180 | an addition is accepted exactly for different known ids, none of them linked; a linked one that no spelling in the request gives away breaks the unique index |
| Links.AddLeavesUnion | src/v1/rate-option/services/rate-option.service.ts:182-191 | the owner has the union afterwards, others keep their rows, pairs stay unique |
| Links.RemoveAcceptedIff | src/v1/rate-option/services/rate-option.service.ts:193-214 | with unique pairs a removal is accepted exactly for different linked ids |
| Links.RemoveLeavesRest | src/v1/rate-option/services/rate-option.service.ts:216-222 | exactly the named links of the owner are gone |
| Links.AddThenRemoveRestores | src/v1/rate-option/services/rate-option.service.ts:142-222 | removing what was just added is accepted and restores the table row for row |
| Links.RemoveThenAddRestores | src/v1/rate-option/services/rate-option.service.ts:142-222 | adding what was just removed is accepted exactly while known, and restores the same pairs |
| Links.PairsStayUnique | src/v1/rate-option/services/rate-option.service.ts:142-222 | no run of replacements, additions, removals and owner deletions repeats a pair |
| Links.ReplaceLists | src/v1/room/services/room-type.service.ts:200-213 | which ids a refused replacement lists |
| Links.AddLists | src/v1/rate-option/services/rate-option.service.ts:150-180 | which ids a refused addition lists, and why |
| Links.RemoveLists | src/v1/rate-option/services/rate-option.service.ts:200-214 | which ids a refused removal lists |
| LinkServices.RoomTypeService.SyncCharacteristics | src/v1/room/services/room-type.service.ts:196-226 | accepted exactly for different known ids, leaving exactly them |
| LinkServices.RoomTypeService.Create | src/v1/room/services/room-type.service.ts:31-56 | done exactly when the hotel exists and the characteristics are different known ids; the room type is stored even when they are refused, and then no link changes |
| LinkServices.RoomTypeService.Update | src/v1/room/services/room-type.service.ts:91-146 | done exactly when the room type is the hotel's and a given list holds different known ids; replaces the links when a list is given, and only then |
| LinkServices.RoomTypeService.Remove | src/v1/room/services/room-type.service.ts:148-165 | removes a room type that no room or rate option uses, with its links |
| LinkServices.RateOptionService.AddBenefits | src/v1/rate-option/services/rate-option.service.ts:142-191 | the links are those of the specification, refusals change nothing |
| LinkServices.RateOptionService.RemoveBenefits | src/v1/rate-option/services/rate-option.service.ts:193-226 | the links are those of the specification, refusals change nothing |
| LinkServices.RoleService.ValidatePermissionIds | src/v1/auth/services/role.service.ts:223-242 | no refusal exactly for different known permissions |
| LinkServices.RoleService.Create | src/v1/auth/services/role.service.ts:89-128 | the role and exactly its permissions are stored, or nothing changes |
| LinkServices.RoleService.Update | src/v1/auth/services/role.service.ts:130-200 | a given list replaces the permissions exactly; a refusal changes nothing |

## Left out

- BookingRuns.BookingHistory: creates, status requests, intents and cash confirmations are single steps of these runs, where only the success handler is split at its awaits. Their parts are steps in `LateWrites` and `LatePayments`, whose theorems are about rooms sold twice and about payments; the paths of statuses are not restated for split requests. The lookups of a create count as one moment.
- BookingModel.FirstDateRefusal: requested dates are bare dates; what date-times do to nights is stated in `Nights`. They can also store a stay of no nights. ISO forms that name a week or a day of the year are not modelled.
- BookingService.BookingService.ValidateRooms: when several rooms of a request fail their lookups, the code reports whichever failure comes first in time; the model reports that of the earliest room.
- Money.StoredTotalIsExact: amounts are below 10^30 cents, so that no float step leaves the range in which the relative error bound holds.
- Whether a room is OCCUPIED exactly while a checked-in booking holds it: cancelling any booking frees its rooms, so the code does not establish it.
- Refunds, single-payment lookup and booking lists: reads or single assignments. Generated booking references are inputs.
- TimedCache.AnswersAreRecent: the cache with a clock is modelled on values; the cache of the service classes has no clock, so an entry stays until it is deleted.
- HotelService.HotelService.FindAll: search term, order and pages are one arbitrary function of the matching rows and the filter; the numbers that price filters write are read by an arbitrary function.
- HotelService.HotelService.FindOne: of the joined rows it shows ids and prices; they can change without the entry being dropped.
- RoomService.RoomService.FindAllByHotel: order and pages as for hotels; of a joined room type the list shows name, occupancy and characteristics; the price filters name a column that rate options do not have.
- PaymentService.PaymentService.FindAll: order and pages as for hotels.
- CacheKeys.SortIsAscending: characters are Unicode scalars; code units order the names the same way, because all of them are ASCII.
- CacheKeys.StableIsCanonical: strings hold no lone surrogates, numbers are given by their text, and values are scalars or arrays of strings.
- Ids.Key: an id is a UUID in its hyphenated form. Bookings, rooms, owners of links and accounts that a path or body names are given by their stored id, because nothing but the lookup depends on how they are spelled; the spelling is kept where the code compares it: rooms of a create, types of a bulk request, linked items, and the hotels that cached lists and details are asked for.
- HotelService.HotelService.Update: what the mapper makes of a row that it loads by a primary key in another letter case is taken to be the row.
- CacheRuns.ListsRightIff: a write and the deletion of the lists that it drops are one step, and entries do not expire there; expiry is in `TimedCache`.
- LateCodes.AcceptedOnceIff: a save writes every field of its copy.
- Delivery of codes by mail or text message, password hashing, token signing, the payment gateway and the identity providers: their answers are inputs.
- OtpServices.PasswordResetService.Verify: issuing the reset token; setting the new password with it is `TokenServices.AuthService.ResetPassword`.
- A two-factor login that completes: codes are refused while the flag is on (`TwoFactorFlag.CodeRefusedIffEnabled`).
- TokenServices.AuthService.Login: credential checks are one input; access-token contents beyond the subject, log entries, logout times and device tokens are not modelled.
- TokenServices.TokenService.GenerateRefreshToken: the configured signing lifetime plays no part, because only the stored row's expiry is checked; the hash is taken to be injective.
- Transactions.Runtime.Execute: calls run one after another; what the database does to later statements of a transaction after it has rejected one is not modelled.
- Calendar.ParseRangeStart: a text without timezone information has the form YYYY-MM-DD; what the date library makes of texts with timezone information is an input; Myanmar's offsets before 1945 are not modelled.
- Calendar.RealDatesMeanThemselves: years 0 to 99 are read as 1900 to 1999, as `Date.UTC` does.
- LinkServices.RoleService.Create: the lookup of the name is an input, and role rows have no other fields; soft deletion of roles is not modelled.
- Registration stages, profile updates, file uploads, activity and audit logs, mail settings, controllers, guards, seeders and migrations.
