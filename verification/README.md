# Hotel manager: a Dafny model of its services and pages

The hotel manager is a booking site. It has two halves:

- A Spring backend keeps rooms, users and bookings in three database tables. It answers with a response carrying a status code, a message and the rows asked for.
- Browser pages call that backend. They check forms, filter, sort and page lists, classify stays as upcoming, active or completed, and work out prices.

This project models the backend's booking, room and user services, the local image storage and the booking entity. It also models the logic of every page script: the shared helpers, login and registration, the home page, the room list and room page, the booking and confirmation pages, the guest's dashboard and booking list, and the four administration pages.

How the model represents the system:

- Database tables are maps from id to row, plus the counter that issues the next id.
- A service call is a pure function from the tables before the call to the tables after it and the response.
- Dates are day numbers. The current day, and the dashboard's current instant, are parameters.
- Prices are real numbers. A number the page could not parse is `None`.
- A Java `null` or a missing JavaScript value is `None`.
- Each Java `int` the booking entity adds up is a 32-bit integer that wraps around.

One module per source file:

| module | source |
|---|---|
| `BookingService` | `BookingService.java` |
| `RoomService` | `RoomService.java` |
| `UserService` | `UserService.java` and the e-mail lookup of `UserRepository.java` |
| `ImageStorage` | `LocalImageStorageService.java` |
| `Entities` | `Booking.java` and the tables |
| `SiteUtils` | `main.js` |
| `Auth` | `auth.js` |
| `Homepage` | `homepage.js` |
| `Rooms` | `rooms.js` |
| `RoomDetail` | `room-detail.js` |
| `BookingPage` | `booking.js` |
| `BookingConfirmation` | `booking-confirmation.js` |
| `Dashboard` | `dashboard.js` |
| `MyBookings` | `my-bookings.js` |
| `AdminDashboard` | `admin-dashboard.js` |
| `AdminBookings` | `admin-bookings.js` |
| `AdminRooms` | `admin-rooms.js` |
| `AdminUsers` | `admin-users.js` |

`Common`, `Text`, `Seqs`, `Sorting`, `Paging`, `Dates` and `Views` hold the shared pieces:

- optional values and results;
- lower-casing, trimming, searching text and decimal numbers;
- filtering and counting;
- a stable sort;
- paging;
- day arithmetic;
- the shapes of the records the pages receive.

## Model

| member | source | states |
|---|---|---|
| Entities.Add32 | src/main/java/com/PhongLee0938/HotelManager/entity/Booking.java:47 | Java `int` addition: the exact sum when it fits in 32 bits, and otherwise a value congruent to it modulo 2^32 |
| Entities.CalculateTotalNumOfGuests | src/main/java/com/PhongLee0938/HotelManager/entity/Booking.java:44-48 | The lifecycle callback changes only the total. The total is adults plus children whenever that sum fits in an `int`. |
| Entities.ValidBookingHasGuests | src/main/java/com/PhongLee0938/HotelManager/entity/Booking.java:20-33 | A booking that passes the entity's constraints (at least one adult, no negative children) and went through the callback has at least one guest, unless the sum overflows |
| Entities.GuestTotalWrapsAround | src/main/java/com/PhongLee0938/HotelManager/entity/Booking.java:46-48 | The callback has no overflow guard: the largest adult count plus one child gives a negative total |
| Entities.KeysDescending | src/main/java/com/PhongLee0938/HotelManager/service/impl/BookingService.java:98 | Sorting by id, descending: the result lists every stored key exactly once, strictly decreasing |
| Entities.KeysWhere | src/main/java/com/PhongLee0938/HotelManager/repo/UserRepository.java:11 | A derived query: exactly the keys of the rows that satisfy the condition, newest first |
| BookingService.RoomBookings | src/main/java/com/PhongLee0938/HotelManager/service/impl/BookingService.java:46 | The room's bookings are exactly the stored bookings made against that room |
| BookingService.RoomIsAvailable | src/main/java/com/PhongLee0938/HotelManager/service/impl/BookingService.java:136-142 | A stay is available exactly when, for every existing booking, the stay ends on or before its check-in or starts on or after its check-out |
| BookingService.BackToBackStaysAllowed | src/main/java/com/PhongLee0938/HotelManager/service/impl/BookingService.java:136-142 | A stay that starts on the day another ends does not clash with it |
| BookingService.OverlapsSymmetric | src/main/java/com/PhongLee0938/HotelManager/service/impl/BookingService.java:136-142 | Whether two stays clash does not depend on which one is named first |
| BookingService.AvailabilityIsStayFree | src/main/java/com/PhongLee0938/HotelManager/service/impl/BookingService.java:46-50 | The availability check over the room's bookings agrees with a direct reading over the whole bookings table |
| BookingService.SaveBooking | src/main/java/com/PhongLee0938/HotelManager/service/impl/BookingService.java:35-70 | Each failing case gets its own answer and leaves the database unchanged: a missing date, an inverted stay, a clash with another booking of the room ("Room is not available for selected date range") and a constraint violation are 500, and an unknown room or user is 404. Success stores exactly one new booking for that room and user, with the code and the guest total. |
| BookingService.SaveBookingPreservesNoOverlaps | src/main/java/com/PhongLee0938/HotelManager/service/impl/BookingService.java:46-57 | If no two bookings of a room overlap before a save, none overlap after it |
| BookingService.CancelBooking | src/main/java/com/PhongLee0938/HotelManager/service/impl/BookingService.java:116-134 | An unknown id gets 404 and changes nothing. Otherwise exactly that booking is removed, and rooms and users are untouched. |
| BookingService.CancelUndoesSave | src/main/java/com/PhongLee0938/HotelManager/service/impl/BookingService.java:120-122 | Cancelling the booking a save has just stored gives back the bookings that were there before |
| BookingService.CancelPreservesNoOverlaps | src/main/java/com/PhongLee0938/HotelManager/service/impl/BookingService.java:120-122 | Cancelling never creates a clash |
| BookingService.GetAllBookings | src/main/java/com/PhongLee0938/HotelManager/service/impl/BookingService.java:93-114 | Always 200. The list holds every stored booking and nothing else, ordered by id from the newest down. |
| BookingService.WithCode | src/main/java/com/PhongLee0938/HotelManager/service/impl/BookingService.java:77 | Exactly the keys of the bookings that carry the code, newest first |
| BookingService.FindBookingByConfirmationCode | src/main/java/com/PhongLee0938/HotelManager/service/impl/BookingService.java:72-91 | No match gives 404. One match gives 200 with that booking. Several matches give 500, since the lookup expects a unique result. |
| BookingService.SavedBookingIsFoundByCode | src/main/java/com/PhongLee0938/HotelManager/service/impl/BookingService.java:52-60 | A booking saved under a code no other booking carries is then found by that code |
| RoomService.AddNewRoom | src/main/java/com/PhongLee0938/HotelManager/service/impl/RoomService.java:32-54 | A failed image store gives 500 and adds no room. Otherwise exactly one room is added under the next id, with the given details and the stored photo's URL. |
| RoomService.GetAllRooms | src/main/java/com/PhongLee0938/HotelManager/service/impl/RoomService.java:61-77 | The list holds every stored room and nothing else, newest first, with the message the source sends |
| RoomService.DeleteRoom | src/main/java/com/PhongLee0938/HotelManager/service/impl/RoomService.java:79-97 | An unknown id gets 404 and changes nothing. Otherwise exactly that room is removed. |
| RoomService.UpdateRoom | src/main/java/com/PhongLee0938/HotelManager/service/impl/RoomService.java:99-130 | The photo is stored before the room is looked up. Every refusal of the photo, including a failed write, reads as 404 "Room not found" with no change. A photo without a name is 500 with the null-pointer message. An unknown room is 404. A successful update overwrites only the fields that were given and changes nothing else. |
| RoomService.GetRoomById | src/main/java/com/PhongLee0938/HotelManager/service/impl/RoomService.java:132-151 | An unknown id gets 404. Otherwise 200 with the stored room. |
| RoomService.AddedRoomIsRetrievable | src/main/java/com/PhongLee0938/HotelManager/service/impl/RoomService.java:37-47 | A room just added is found under the new id with exactly the details given |
| RoomService.DeleteUndoesAdd | src/main/java/com/PhongLee0938/HotelManager/service/impl/RoomService.java:83-85 | Deleting the room just added gives back the rooms there were before |
| RoomService.EmptyUpdateChangesNothing | src/main/java/com/PhongLee0938/HotelManager/service/impl/RoomService.java:109-112 | An update with no field and no photo leaves an existing room as it was |
| RoomService.UpdateIsIdempotent | src/main/java/com/PhongLee0938/HotelManager/service/impl/RoomService.java:109-112 | Repeating an update that has no photo changes nothing more |
| RoomService.RejectedPhotoReportsMissingRoom | src/main/java/com/PhongLee0938/HotelManager/service/impl/RoomService.java:104-124 | Uploading a file that is not an image to an existing room is answered "Room not found", and nothing changes |
| RoomService.FailedPhotoWriteReportsMissingRoom | src/main/java/com/PhongLee0938/HotelManager/service/impl/RoomService.java:104-124 | An image that the file system fails to write, sent to an existing room, is answered "Room not found", and nothing changes |
| ImageStorage.GetFileExtension | src/main/java/com/PhongLee0938/HotelManager/service/LocalImageStorageService.java:57-60 | The lower-cased text after the last dot, or "" when there is no dot |
| ImageStorage.IsAllowedImageExt | src/main/java/com/PhongLee0938/HotelManager/service/LocalImageStorageService.java:62-65 | Accepted exactly when the lower-case extension is jpg, jpeg, png, gif or webp |
| ImageStorage.SaveImage | src/main/java/com/PhongLee0938/HotelManager/service/LocalImageStorageService.java:25-55 | In order: an empty upload, a missing name or a non-image extension is refused. A file-system failure is reported. Otherwise the result is the URL of the generated file name with its extension. |
| ImageStorage.ExtensionOfNamedFile | src/main/java/com/PhongLee0938/HotelManager/service/LocalImageStorageService.java:57-60 | The extension of `base.e` is `e` in lower case, whatever the base holds |
| ImageStorage.AcceptsImagesInAnyCase | src/main/java/com/PhongLee0938/HotelManager/service/LocalImageStorageService.java:35-50 | A non-empty named upload is stored exactly when its extension, in any case, is an allowed image type |
| ImageStorage.RejectsNamesWithoutExtension | src/main/java/com/PhongLee0938/HotelManager/service/LocalImageStorageService.java:35-38 | A name without a dot is never stored |
| ImageStorage.ValidationIgnoresIo | src/main/java/com/PhongLee0938/HotelManager/service/LocalImageStorageService.java:27-47 | Checks come before any disk access: two outcomes differ only when the upload passed every check |
| UserService.WithEmail | src/main/java/com/PhongLee0938/HotelManager/repo/UserRepository.java:11 | Exactly the keys of the users with that e-mail, newest first |
| UserService.EmailTakenIffFound | src/main/java/com/PhongLee0938/HotelManager/repo/UserRepository.java:10-11 | The existence check and the lookup by e-mail agree |
| UserService.EffectiveRole | src/main/java/com/PhongLee0938/HotelManager/service/impl/UserService.java:36-38 | The stored role is never blank: it is the given role when that is not blank, and "USER" otherwise |
| UserService.Register | src/main/java/com/PhongLee0938/HotelManager/service/impl/UserService.java:32-57 | A taken e-mail is refused with 400, and a failed encoding gives 500, both without change. Otherwise exactly one user is added, with the encoded password and the effective role. |
| UserService.SecondRegistrationRefused | src/main/java/com/PhongLee0938/HotelManager/service/impl/UserService.java:39-41 | A second registration with the same e-mail is refused and stores nothing |
| UserService.Login | src/main/java/com/PhongLee0938/HotelManager/service/impl/UserService.java:59-83 | A failed authentication gives 500 with its message. After authentication, 404 exactly when no user has the e-mail, and 200 exactly when one user has it, with the token, that user's role and the expiry "7 Days". Several users with the e-mail give 500. |
| UserService.OneMatchIffStoredOnce | src/main/java/com/PhongLee0938/HotelManager/repo/UserRepository.java:11 | `findByEmail` finds a single key exactly when one stored user has the e-mail |
| UserService.RegisteredUserLogsIn | src/main/java/com/PhongLee0938/HotelManager/service/impl/UserService.java:32-83 | After a successful registration, an authenticated login with that e-mail gives 200 with the token and the role the registration stored |
| UserService.LookupUser | src/main/java/com/PhongLee0938/HotelManager/service/impl/UserService.java:108 | An id that is not a decimal long gives 500 with the number-format message. An unknown id gives 404. Otherwise the user is found under that key. |
| UserService.DeleteUser | src/main/java/com/PhongLee0938/HotelManager/service/impl/UserService.java:125-144 | A failed lookup gives its answer and changes nothing. Otherwise exactly that user is removed and the answer is 200. |
| UserService.GetUserById | src/main/java/com/PhongLee0938/HotelManager/service/impl/UserService.java:146-166 | A failed lookup gives its answer. Otherwise 200 with the stored user. |
| UserService.BookingsOf | src/main/java/com/PhongLee0938/HotelManager/service/impl/UserService.java:109 | The history holds exactly the stored bookings made by that user |
| UserService.GetUserBookingHistory | src/main/java/com/PhongLee0938/HotelManager/service/impl/UserService.java:103-123 | A failed lookup gives its answer. Otherwise 200 with the user and exactly their bookings. |
| UserService.GetMyInfo | src/main/java/com/PhongLee0938/HotelManager/service/impl/UserService.java:168-187 | 404 exactly when no user has the e-mail. Otherwise 200 with that user, or 500 if several users share it. |
| UserService.RegisteredUserFindsOwnInfo | src/main/java/com/PhongLee0938/HotelManager/service/impl/UserService.java:42-46 | A user who has just registered is found by their own e-mail |
| UserService.RegisterThenDeleteById | src/main/java/com/PhongLee0938/HotelManager/service/impl/UserService.java:130-131 | A user who has just registered is found, and deleted, through the decimal text of their new id |
| UserService.NonNumericIdIsServerError | src/main/java/com/PhongLee0938/HotelManager/service/impl/UserService.java:118-121 | A user id that is not a number is a server error, not a "not found", in delete, get and history alike |
| Text.ParseLongIntToString | src/main/java/com/PhongLee0938/HotelManager/service/impl/UserService.java:108 | Reading back the printed decimal text of any long gives the same number |
| SiteUtils.IsLoggedIn | frontend/assets/js/main.js:34 | Logged in exactly when a non-empty token is stored |
| SiteUtils.IsAdmin | frontend/assets/js/main.js:37-40 | An administrator exactly when a user is stored and their role is "ADMIN" |
| SiteUtils.GetBasePath | frontend/assets/js/main.js:255-261 | "../" exactly for pages under the auth, user or admin folders, and "" elsewhere |
| SiteUtils.ScanIffPattern | frontend/assets/js/main.js:279-282 | The scanning check accepts exactly the texts that split as the e-mail pattern requires |
| SiteUtils.ValidateEmail | frontend/assets/js/main.js:279-282 | True exactly when the text matches the e-mail pattern |
| SiteUtils.PlainAddressPasses | frontend/assets/js/main.js:279-282 | An ordinary address passes |
| SiteUtils.SecondAtFails | frontend/assets/js/main.js:279-282 | A text with two `@` fails, wherever they stand |
| SiteUtils.MissingDotFails | frontend/assets/js/main.js:279-282 | A text without a dot fails |
| SiteUtils.ValidatePassword | frontend/assets/js/main.js:284-286 | A password is valid exactly when it has at least six characters |
| SiteUtils.ValidateRequired | frontend/assets/js/main.js:288-290 | Valid exactly when a value is given that has a character that is not white space |
| SiteUtils.ValidatePhoneNumber | frontend/assets/js/main.js:292-295 | True exactly when the text matches the phone pattern: an optional `+`, a digit 1-9, then up to fifteen digits |
| SiteUtils.PhoneExamples | frontend/assets/js/main.js:292-295 | An international number passes. A leading 0, seventeen digits or a dash fail. |
| Auth.CheckEmail | frontend/assets/js/auth.js:62-79 | The field passes exactly when the trimmed text is a valid e-mail, and each failure has its own message |
| Auth.CheckLoginPassword | frontend/assets/js/auth.js:82-93 | The login password passes exactly when it is not empty |
| Auth.SubmitLogin | frontend/assets/js/auth.js:113-137 | The login is sent, with the trimmed e-mail, exactly when both fields pass |
| Auth.StoredUserAfterLogin | frontend/assets/js/auth.js:158-191 | The stored user takes role and expiry from the login answer. The other fields come from the profile when there is one, and otherwise from the form. |
| Auth.HandleLoginResponse | frontend/assets/js/auth.js:149-205 | A 200 answer with a token stores token and user. Any other answer fails with its message, or "Login failed". |
| Auth.LoginDecidesAdmin | frontend/assets/js/auth.js:149-167 | After a successful login the visitor counts as logged in. They count as an administrator exactly when the login answer's role is "ADMIN". |
| Auth.CheckFullName | frontend/assets/js/auth.js:259-275 | The name passes exactly when its trimmed text has at least two characters |
| Auth.CheckPhone | frontend/assets/js/auth.js:295-312 | The phone passes exactly when its trimmed text has at least six characters |
| Auth.CheckPassword | frontend/assets/js/auth.js:314-338 | The password passes exactly when it has at least three characters |
| Auth.CheckConfirmation | frontend/assets/js/auth.js:340-358 | The confirmation passes exactly when it is given and equals the password |
| Auth.CheckTerms | frontend/assets/js/auth.js:360-371 | The terms pass exactly when they are accepted |
| Auth.CheckRegistration | frontend/assets/js/auth.js:385-391 | All six checks pass exactly when the trimmed name has two characters, the trimmed e-mail matches the pattern, the trimmed phone has six characters, the password three, the confirmation equals it and the terms are accepted |
| Auth.SubmitRegistration | frontend/assets/js/auth.js:374-404 | Registration is sent, with the trimmed texts, exactly when all six checks pass |
| Auth.RegistrationAcceptsShortPasswords | frontend/assets/js/auth.js:314-338 | The registration check is weaker than the shared validator: it sends passwords of three to five characters, and every password the validator accepts |
| Auth.PhoneCheckIgnoresPhonePattern | frontend/assets/js/auth.js:295-312 | The registration check and the shared phone validator disagree in both directions |
| Auth.RegistrationErrorMessage | frontend/assets/js/auth.js:494-503 | An error that mentions "already registered" shows the fixed text. Any other error shows its own message, or a fixed text when that message is empty. |
| Auth.FailedRegistrationMessage | frontend/assets/js/auth.js:490-503 | A refusal inside a successful answer shows the fixed text for a duplicate, any other non-empty message as it is, and "Registration failed" when there is none |
| Auth.RequestErrorMessage | frontend/assets/js/main.js:134-147 | The request helper raises the answer's message, "An error occurred" when an error answer has none, and "Network error occurred" when no answer came |
| Auth.NetworkErrorIsShown | frontend/assets/js/auth.js:494-503 | A registration that gets no answer shows "Network error occurred" |
| Auth.DefaultFailureIsNotDuplicate | frontend/assets/js/auth.js:491 | The default failure text is not taken for a duplicate e-mail |
| Auth.ServerRefusalMentionsAlreadyRegistered | frontend/assets/js/auth.js:494-503 | The server's duplicate-e-mail refusal contains "already registered" |
| Auth.DuplicateEmailShowsFixedMessage | frontend/assets/js/auth.js:494-503 | For any taken address, the backend's refusal makes the page show the fixed duplicate text |
| Homepage.FeaturedRooms | frontend/assets/js/homepage.js:81-117 | Without a non-empty list nothing is shown. With one, its first six rooms, or all of them when fewer. |
| Homepage.SubmitSearch | frontend/assets/js/homepage.js:179-223 | The search is sent exactly when both dates are given, check-in is not in the past and check-out follows it. Otherwise the first failing check gives its message. |
| Homepage.SentSearchIsAcceptedByRoomList | frontend/assets/js/homepage.js:216-223 | A search the home page sends is never refused by the room list |
| Homepage.DefaultDates | frontend/assets/js/homepage.js:237-246 | The form starts with today and tomorrow |
| Homepage.CheckInChanged | frontend/assets/js/homepage.js:253-264 | After check-in changes, check-out is after it. A check-out already after it is kept. |
| Homepage.FormDatesAreSearchable | frontend/assets/js/homepage.js:237-264 | The form never offers dates it would refuse: the defaults and any later check-in are accepted |
| Rooms.HandleSearch | frontend/assets/js/rooms.js:154-173 | Two dates with check-out not after check-in are refused and change nothing. Anything else becomes the search. |
| Rooms.ApplySearchFilter | frontend/assets/js/rooms.js:176-247 | With dates, the available rooms. With a type only, the rooms whose type contains it, ignoring case. A room without a type leaves the list as it was. Otherwise every room. |
| Rooms.ApplyFilters | frontend/assets/js/rooms.js:250-277 | Exactly the rooms within the price bounds and of a chosen type, in order, on page 1 |
| Rooms.ClearAllFilters | frontend/assets/js/rooms.js:523-534 | Every room, on page 1 |
| Rooms.ClearAllFiltersMatchesEmptyFilters | frontend/assets/js/rooms.js:523-534 | Clearing shows what filtering with nothing chosen shows |
| Rooms.CrossedBoundsShowNothing | frontend/assets/js/rooms.js:256-262 | A lower bound above the upper bound shows no room |
| Rooms.PriceLow | frontend/assets/js/rooms.js:285 | Cheapest first is a total preorder over all rooms, with a missing price read as 0 |
| Rooms.PriceHigh | frontend/assets/js/rooms.js:288 | Dearest first is a total preorder over all rooms, with a missing price read as 0 |
| Rooms.ByType | frontend/assets/js/rooms.js:291 | Comparing types in code-unit order is a total preorder over all rooms |
| Rooms.ById | frontend/assets/js/rooms.js:294 | Comparing by id, lowest first, is a total preorder |
| Rooms.SortByPrice | frontend/assets/js/rooms.js:284-289 | The same rooms, as a permutation, ordered by price in the chosen direction. Rooms of equal price keep their original order, as a stable sort leaves them. |
| Rooms.SortByType | frontend/assets/js/rooms.js:290-292 | The same rooms, as a permutation, ordered by type. Rooms of the same type keep their original order. |
| Rooms.HandleSort | frontend/assets/js/rooms.js:280-299 | The same rooms, as a permutation, ordered by the chosen key, on page 1. Any other key orders by id. Rooms tied on the key keep their original order. A missing price compares equal to every room, so when the priced rooms share one price the list stays as it is. A list of at most one room stays as it is under every key. A price sort over different prices beside a missing one, or a type sort over two or more rooms with a missing type, gives no determined order. |
| Rooms.SingleRoomWithoutKeyIsShown | frontend/assets/js/rooms.js:283-298 | One room without the chosen sort key is shown as it is, on page 1 |
| Rooms.MixedPricesAreUndetermined | frontend/assets/js/rooms.js:284-286 | Two rooms of different prices beside one without a price give no determined price order |
| Rooms.RoomsToShow | frontend/assets/js/rooms.js:315-318 | The rooms of the current page, in order |
| Rooms.ChangeRoomsPage | frontend/assets/js/rooms.js:494-500 | Only a page that holds at least one room is taken |
| Rooms.ShortDescription | frontend/assets/js/rooms.js:368-370 | A long description is cut to 120 characters and "...". A missing or empty one gets a fixed text. |
| Dates.AdjustCheckOut | frontend/assets/js/rooms.js:554-564 | A check-out not after check-in moves to the day after it. Anything else is kept. |
| RoomDetail.DefaultBookingDates | frontend/assets/js/room-detail.js:127-141 | The address's dates when both are given, otherwise tomorrow and the day after |
| RoomDetail.HandleDateChange | frontend/assets/js/room-detail.js:175-191 | Once check-in is set, check-out follows it. A check-out already after it is kept. |
| RoomDetail.DateChangeSettles | frontend/assets/js/room-detail.js:187-190 | A second change of the dates leaves them as they are |
| RoomDetail.CalculatePrice | frontend/assets/js/room-detail.js:197-228 | No estimate without both dates, a room and at least one night. Otherwise the breakdown is shown. A price that does not parse shows it without amounts, where the page prints NaN. With a price, the subtotal is price times nights, the fee is 5% of it, and the total is their sum. |
| RoomDetail.HandleBookingSubmit | frontend/assets/js/room-detail.js:231-285 | The booking page is reached exactly when the guest is logged in and the dates are set, not in the past and in order. Otherwise the first failing check gives its message. |
| RoomDetail.DefaultsAndAdjustedDatesAreAccepted | frontend/assets/js/room-detail.js:134-140 | The default dates, and the dates after a check-in from today on, pass the submit checks and give an estimate |
| BookingPage.IntOr | frontend/assets/js/booking.js:66-67 | A number that is missing or 0 is replaced by the fallback |
| BookingPage.ParseBookingParameters | frontend/assets/js/booking.js:59-69 | The address's values, with 2 adults and 0 children when missing, not a number, or 0 |
| BookingPage.InitializeBooking | frontend/assets/js/booking.js:15-31 | A guest who is not logged in is sent to log in, and a missing room id is an error. Otherwise the parameters are kept. |
| BookingPage.CalculatePrice | frontend/assets/js/booking.js:167-196 | No breakdown without a room or a night. Otherwise subtotal, a 5% fee, 10% taxes, and the total of the three. |
| BookingPage.TotalExceedsEstimateByTaxes | frontend/assets/js/booking.js:179-183 | For the same stay, the booking page's total is the room page's estimate plus a tenth of the subtotal |
| BookingPage.CreateBookingData | frontend/assets/js/booking.js:292-306 | Carries the dates and guest counts of the parameters and the guest's details. The dates are not checked: a date missing from the address is sent as 1970-01-01. |
| BookingPage.MissingCheckOutIsRefused | frontend/assets/js/booking.js:292-297 | A booking sent without a check-out date carries 1970-01-01, which the entity's constraint that check-out lies in the future refuses |
| BookingPage.GuestDefaultsMeetEntityConstraints | frontend/assets/js/booking.js:66-67 | The default guest counts satisfy the entity's constraints. An explicit negative adult count gets through to the backend, which refuses it. |
| BookingConfirmation.ParseConfirmationParameters | frontend/assets/js/booking-confirmation.js:45-56 | The address's values, with the same guest defaults as the booking page |
| BookingConfirmation.GuestCountsAgreeWithBookingPage | frontend/assets/js/booking-confirmation.js:53-54 | Both pages read the same guest counts from the same address |
| BookingConfirmation.InitializeConfirmation | frontend/assets/js/booking-confirmation.js:13-21 | Without a booking id, only an error is shown |
| BookingConfirmation.RoomInformation | frontend/assets/js/booking-confirmation.js:94-126 | The room's title, type and description with their fallbacks. The description is cut to 100 characters and "...". It is missing only when the room has neither a description nor a type. |
| BookingConfirmation.LongDescriptionIsCut | frontend/assets/js/booking-confirmation.js:124-126 | A long description shows its first hundred characters and "..." |
| BookingConfirmation.GuestInformation | frontend/assets/js/booking-confirmation.js:169-183 | The stored user's name, e-mail and phone, with "Guest" and "N/A" for whatever is missing or empty |
| Dashboard.LoadUserBookings | frontend/assets/js/dashboard.js:68-99 | With no user id the list is unchanged. A successful answer gives its bookings. Anything else gives the empty list. |
| Dashboard.PopulateUserProfile | frontend/assets/js/dashboard.js:102-119 | Each profile text is the user's field, or its fallback when missing or empty |
| Dashboard.GetBookingStatus | frontend/assets/js/dashboard.js:257-269 | Upcoming before the check-in midnight, active until the check-out midnight, completed after it |
| Dashboard.PopulateQuickStats | frontend/assets/js/dashboard.js:122-155 | The total, and how many stays are under way, ahead and over, with cancelled bookings counted like any other. A stay counts as over when its check-out has passed, which matches its status only for stays in order. |
| Dashboard.QuickStatsAddUp | frontend/assets/js/dashboard.js:127-143 | When no stay ends before it begins, the three counts add up to the total |
| Dashboard.CheckOutDayDiffersFromAdminList | frontend/assets/js/dashboard.js:257-269 | On the check-out day the dashboard already says completed while the administrators' list still says active |
| Dashboard.LaterCheckInFirst | frontend/assets/js/dashboard.js:174 | Latest check-in first is a total preorder |
| Dashboard.RecentBookings | frontend/assets/js/dashboard.js:173-175 | At most three bookings, all from the list, latest check-in first. No booking left out checks in later than one that is shown, and among equal check-ins the earliest in the list are shown, in list order. |
| MyBookings.ApplyCurrentFilters | frontend/assets/js/my-bookings.js:197-225 | "all" and "" keep every booking. Any other filter keeps exactly the bookings it matches. The result is a subsequence of the list, so order and repeats are kept as `filter` keeps them. |
| MyBookings.DefaultSortIsNewestCheckInFirst | frontend/assets/js/my-bookings.js:185 | The default sort key reads as check-in date, descending |
| MyBookings.Comparator | frontend/assets/js/my-bookings.js:244-269 | Every sort key gives a total preorder: by check-in or by id, in either direction, or all equal for an unknown field |
| MyBookings.SortBookings | frontend/assets/js/my-bookings.js:244-269 | The same bookings, as a permutation, ordered by the key's field and direction, with bookings tied on that field in their original order. An unknown field keeps the order. |
| MyBookings.ApplyFiltersAndSort | frontend/assets/js/my-bookings.js:228-241 | Exactly the bookings the filter keeps, ordered by the chosen sort, with ties in list order |
| MyBookings.HandleSearch | frontend/assets/js/my-bookings.js:120-138 | An empty term restores every booking, and otherwise the matching ones are kept. The status filter applies again. The result is a subsequence of all bookings, in their loaded order, not re-sorted. |
| MyBookings.HandleStatusFilter | frontend/assets/js/my-bookings.js:141-149 | The chosen status, or "all" for an empty choice |
| MyBookings.EmptyStatusListsAll | frontend/assets/js/my-bookings.js:145 | Choosing the empty status lists every booking in the current order |
| MyBookings.HandleQuickFilter | frontend/assets/js/my-bookings.js:160-173 | The button's filter becomes current. The dropdown shows it, or "" for "all". |
| MyBookings.QuickFilterAgreesWithDropdown | frontend/assets/js/my-bookings.js:164-168 | Reading back the dropdown a quick filter set gives that filter again |
| MyBookings.HandleClearFilters | frontend/assets/js/my-bookings.js:176-194 | Clearing restores the default filter and sort, and the list they give |
| MyBookings.ClearFiltersListsAllNewestFirst | frontend/assets/js/my-bookings.js:176-194 | After clearing, every booking is listed once, latest check-in first |
| MyBookings.ClearButtonVisible | frontend/assets/js/my-bookings.js:496-507 | The clear button shows exactly when a search, a status or a non-default sort is set |
| MyBookings.ClearingHidesButton | frontend/assets/js/my-bookings.js:496-507 | After clearing, the button is hidden |
| MyBookings.GetCardStatus | frontend/assets/js/my-bookings.js:294-313 | A booking card's status, which ignores the cancellation mark |
| MyBookings.CanCancel | frontend/assets/js/my-bookings.js:409-415 | Cancelling is offered only before the stay begins |
| MyBookings.CancelOfferedIffUpcoming | frontend/assets/js/my-bookings.js:409-415 | Cancelling is offered exactly for the bookings whose card says upcoming |
| MyBookings.CardAgreesWithAdminStatus | frontend/assets/js/my-bookings.js:304-313 | For a booking not marked cancelled, the card shows the status the administrators' list gives |
| MyBookings.ActiveFilterKeepsCancelled | frontend/assets/js/my-bookings.js:211-220 | A cancelled stay that includes today is still listed under "active" |
| MyBookings.UpdateStatistics | frontend/assets/js/my-bookings.js:455-484 | Each count is the number of the guest's bookings with that status in the administrators' classification |
| AdminDashboard.LoadCount | frontend/assets/js/admin-dashboard.js:87-98 | The length of a returned list. 0 when the request failed, and the previous count when the answer had no list. |
| AdminDashboard.RevenueAppend | frontend/assets/js/admin-dashboard.js:108-116 | Revenue splits over two lists put together |
| AdminDashboard.UnpricedBookingsAddNothing | frontend/assets/js/admin-dashboard.js:109-115 | Bookings whose room has no price, or a zero price, add no revenue |
| AdminDashboard.RevenueNotNegative | frontend/assets/js/admin-dashboard.js:108-116 | With prices that are not negative and stays in order, revenue is not negative |
| AdminDashboard.LoadBookingsData | frontend/assets/js/admin-dashboard.js:101-125 | The booking count and the revenue as the sum of price times nights. A failed request gives zeros, and an answer without a list changes nothing. |
| AdminDashboard.HigherIdFirst | frontend/assets/js/admin-dashboard.js:148 | Highest id first is a total preorder |
| AdminDashboard.LoadRecentBookings | frontend/assets/js/admin-dashboard.js:142-156 | At most five bookings from the list, highest id first. None left out has a higher id than one shown, and of bookings sharing an id the earliest in the list are shown. |
| AdminDashboard.LoadDashboardData | frontend/assets/js/admin-dashboard.js:63-84 | Each figure depends only on its own request |
| AdminDashboard.ItemStatus | frontend/assets/js/admin-dashboard.js:193-208 | Active from check-in to check-out, completed after it, and upcoming otherwise |
| AdminDashboard.ItemStatusAgreesWithBookingList | frontend/assets/js/admin-dashboard.js:199-208 | For an uncancelled stay in order, the dashboard gives the status the booking list gives |
| AdminDashboard.InvertedStayDisagrees | frontend/assets/js/admin-dashboard.js:202-208 | A stay recorded with check-out before check-in is completed here but upcoming in the booking list |
| AdminDashboard.RecentItemTexts | frontend/assets/js/admin-dashboard.js:211-213 | Room type, guest name and code, each with its fallback when missing or empty |
| AdminBookings.GetBookingStatus | frontend/assets/js/admin-bookings.js:229-241 | Cancelled if marked, otherwise upcoming before check-in, active through check-out, and completed after it |
| AdminBookings.HandleSearch | frontend/assets/js/admin-bookings.js:112-116 | The trimmed, lower-cased text becomes the search, on page 1 |
| AdminBookings.SetQuickFilter | frontend/assets/js/admin-bookings.js:134-172 | "today" bounds both dates by today and "week" by this Sunday-to-Saturday. Anything else clears the bounds. All go back to page 1. |
| AdminBookings.ClearFilters | frontend/assets/js/admin-bookings.js:511-526 | Every filter is back to its initial value, on page 1 |
| AdminBookings.ApplyFilters | frontend/assets/js/admin-bookings.js:175-226 | Exactly the bookings that pass the search, status and date filters, in order |
| AdminBookings.ClearFiltersShowsAll | frontend/assets/js/admin-bookings.js:511-526 | After clearing, every booking is listed in its original order |
| AdminBookings.WeekFilterKeepsThisWeeksStays | frontend/assets/js/admin-bookings.js:156-163 | The "week" filter keeps exactly the stays that begin and end within this week |
| AdminBookings.UnknownStatusListsNothing | frontend/assets/js/admin-bookings.js:192-197 | A status the dropdown does not offer lists nothing |
| AdminBookings.UpdateStatistics | frontend/assets/js/admin-bookings.js:244-266 | The total, and exactly how many filtered bookings have each status |
| AdminBookings.StatisticsAddUp | frontend/assets/js/admin-bookings.js:251-259 | Every booking has one status, so the four counts add up to the total |
| Paging.PageCount | frontend/assets/js/admin-bookings.js:356 | The least number of pages of the given size that hold every item |
| Paging.PageSlice | frontend/assets/js/admin-bookings.js:284-286 | The items of one page: at most a page's worth, consecutive, starting where the page starts |
| Paging.PagesReassemble | frontend/assets/js/admin-bookings.js:284-286 | Showing every page in turn shows each item once, in order |
| Paging.ItemOnPage | frontend/assets/js/admin-bookings.js:284-286 | Item i is on page i / size + 1, at position i % size |
| Paging.ChangePage | frontend/assets/js/admin-bookings.js:396-401 | A requested page is taken exactly when it holds at least one item. Otherwise the page stays. |
| Paging.PageWindow | frontend/assets/js/admin-bookings.js:359-383 | Every page within two of the current one, in increasing order. Nothing when there is at most one page. |
| Dates.Weekday | frontend/assets/js/admin-bookings.js:158 | The day of the week lies between 0 for Sunday and 6 for Saturday |
| Dates.WeekdayCycle | frontend/assets/js/admin-bookings.js:158 | Day 0, 1 January 1970, is a Thursday. Each day follows the previous one in the cycle, and the weekday repeats every seven days. |
| Dates.WeekStart | frontend/assets/js/admin-bookings.js:157-160 | The Sunday on or before the day, at most six days earlier |
| AdminRooms.MaxBound | frontend/assets/js/admin-rooms.js:146 | A maximum that is missing or 0 means no maximum |
| AdminRooms.ApplyFilters | frontend/assets/js/admin-rooms.js:142-178 | Exactly the rooms that pass the search, type and price range, in order |
| AdminRooms.ZeroMaximumMeansNoLimit | frontend/assets/js/admin-rooms.js:146-168 | With a maximum of 0, every room passes the price filter |
| AdminRooms.UnpricedRoomCountsAsFree | frontend/assets/js/admin-rooms.js:165-168 | A room without a price is filtered as costing 0, so a positive minimum drops it |
| AdminRooms.UpdateStatistics | frontend/assets/js/admin-rooms.js:181-186 | Every filtered room counts as available and none as occupied |
| AdminRooms.ShortDescription | frontend/assets/js/admin-rooms.js:236-238 | A long description is cut to 100 characters and "...". A missing one gets a fixed text. |
| AdminRooms.ValidateRoomForm | frontend/assets/js/admin-rooms.js:387-418 | A new room needs a type, a price text that does not read as a number of at most 0, a description and a photo. The first that fails gives its own message: "Room type is required", "Valid room price is required", "Room description is required" or "Room photo is required". Edits are not checked. |
| AdminRooms.NonNumericPriceIsSent | frontend/assets/js/admin-rooms.js:400 | A price text that is not a number passes the check |
| AdminUsers.ApplyFilters | frontend/assets/js/admin-users.js:110-138 | Exactly the users that pass the search and the role filter, in order |
| AdminUsers.AccentedSearchFindsCapital | frontend/assets/js/admin-users.js:110-121 | The search ignores case beyond ASCII: "é" finds a user named "Émile" |
| AdminUsers.NoFiltersListsAll | frontend/assets/js/admin-users.js:114-131 | With no search and no role, every user is listed in order |
| AdminUsers.UpdateStatistics | frontend/assets/js/admin-users.js:141-149 | The total, and how many users and administrators |
| AdminUsers.RoleCountsWithinTotal | frontend/assets/js/admin-users.js:142-144 | The two role counts never exceed the total. They reach it exactly when every user has one of the two roles. |
| AdminUsers.BookingCount | frontend/assets/js/admin-users.js:202 | The length of the history, or 0 without one |
| AdminUsers.NewRole | frontend/assets/js/admin-users.js:354 | An administrator becomes a user, and anyone else an administrator |
| AdminUsers.SwitchingTwice | frontend/assets/js/admin-users.js:354 | Switching twice restores a user or an administrator. Any other role becomes "USER". |

## Left out

- File paths are not cleaned: the upload's name is taken as already cleaned.
- Several listing operations are left out because they only run a query or copy fields:
  - listing room types, available rooms by date and type, all available rooms, and all users;
  - the mapping from entities to transfer objects.
- Rooms.ApplySearchFilter: the rooms the server returns for a search with dates are a parameter (`available`), because the availability query is left out.
- Cascading deletes of a room's or a user's bookings are not modelled. Deleting leaves their bookings in place.
- Password encoding, the authentication manager and token generation come in as parameters, because they are library code. So do the generated confirmation code and file name.
- The image file system comes in as an outcome parameter.
- `parseInt` and `parseFloat` come in as parsed values, with `None` for NaN. The conversion of text to numbers is library code.
- Dates are day numbers. Time zones, and the UTC day that `toISOString` gives, are not modelled.
- Dashboard.GetBookingStatus: `now` is a real number of days, not a clock.
- Rooms.ByType: `localeCompare` is read as code-unit order, because locale collation is outside the model.
- Rooms.HandleSort: a price sort whose comparator is inconsistent gives `None`. This happens when rooms of different prices stand beside a room without one: its NaN difference reads as equal to both. JavaScript leaves that order to the engine. A type sort over two or more rooms where one lacks a type also gives `None`. Whether `localeCompare` is called on the missing type, and throws, depends on the order in which the engine compares.
- The DOM, toasts, timers, modals and loading states are left out. So is the request helper, apart from the message it raises on a failure. So are the 401 redirect, image URLs and the year shown as "member since".
- AdminBookings.SetQuickFilter: the status and date handlers of the administrators' booking list only store their values. They are folded into the filters record.
- Button highlighting, view switching, result counts and the search reset only change the page, and are left out.
- The `min` attributes of date inputs, the "night(s)" text, and the dashboard's empty-list message are left out.
- Text lengths count characters, not UTF-16 code units.
- Case mapping covers the one-to-one capitals of the Basic Latin (A–Z), Latin-1 (À–Þ), Latin Extended-A (U+0100–U+017F), Greek and Coptic (U+0370–U+03FF), Cyrillic (U+0400–U+04FF), Cyrillic Supplement (U+0500–U+052F) and Armenian (Ա–Ֆ) blocks. The capitals of other scripts are left as they are. So are mappings that change the length of a text, such as İ becoming two characters. Final sigma is not applied: a Σ at the end of a word becomes σ, where `toLowerCase` gives ς, so "ΝΙΚΟΣ" does not match a search for "νικος". This is a deliberate bound on the Unicode tables, which are too large to transcribe. The members below rely on this mapping.
- AdminBookings.HandleSearch: the search is lower-cased with the case mapping bounded above.
- AdminBookings.ApplyFilters: the text match is lower-cased with the case mapping bounded above.
- AdminRooms.ApplyFilters: the text match is lower-cased with the case mapping bounded above.
- AdminUsers.ApplyFilters: the text match is lower-cased with the case mapping bounded above.
- Rooms.ApplySearchFilter: the type match is lower-cased with the case mapping bounded above.
- MyBookings.HandleSearch: the search is lower-cased with the case mapping bounded above.
- BookingConfirmation.RoomInformation: the generated description is lower-cased with the case mapping bounded above.
- ImageStorage.GetFileExtension: the extension is lower-cased with the case mapping bounded above.
- BookingService.SaveBooking: a 500 message carries only the service's own prefix, not the text of the underlying exception.
- BookingService.SaveBooking: a request that carries an id of its own is still stored as a new booking under the next id. The repository's save merges such a request into the row with that id. That merge, and its outcome for an id not in the table, are not modelled.
- UserService.Register: a user that carries an id of its own is still stored as a new user under the next id. The repository's save merges such a user into the row with that id, overwriting it. That merge is not modelled.
- UserService.Login: a 500 message carries only the service's own prefix, not the text of the underlying exception.
- UserService.LookupUser: only ASCII digits are read as a number. `Long.valueOf` also accepts the decimal digits of other scripts, such as Arabic-Indic digits. An id written with those is a 500 here where the service would find the user.
- UserService.GetMyInfo: a 500 message carries only the service's own prefix, not the text of the underlying exception.
- BookingService.FindBookingByConfirmationCode: a 500 message carries only the service's own prefix, not the text of the underlying exception.
