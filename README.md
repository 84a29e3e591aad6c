# SAHNE mobile client: a verified model of its core

SAHNE is a React Native client for booking private chefs. This project
models in Dafny the parts of the client that decide something:

- the form validators;
- the phone formatter;
- the chef-photo fallback;
- the session controller (`AuthProvider`) and the HTTP client's two interceptors, which share one device key/value store;
- the review form;
- the theme controller;
- the values the chef card derives from a chef record.

Each module follows one source file:

| module | file | form |
|---|---|---|
| `Validation` | `src/utils/validation.ts` | predicates and lemmas |
| `Format` | `src/utils/format.ts` | a function and lemmas |
| `ChefPhotos` | `src/utils/chefPhotos.ts` | functions and lemmas |
| `Storage` | AsyncStorage | class `KeyValueStore` over a `map<string, string>` |
| `Config` | `src/constants/config.ts` | storage key constants |
| `UserJson` | `JSON.stringify`/`JSON.parse` of a `User` (src/types/user.ts) | encoder, decoder and round-trip lemmas |
| `Api` | `src/services/api.ts` | pure error normalisation plus class `ApiClient` |
| `AuthContext` | `src/context/AuthContext.tsx` | pure step functions plus class `AuthProvider` |
| `ReviewModal` | `src/components/ReviewModal.tsx` | pure guards plus class `ReviewForm` |
| `ThemeContext` | `src/context/ThemeContext.tsx` | pure derivations plus class `ThemeProvider` |
| `ChefCard` | `src/components/chef/ChefCard.tsx` | pure functions and lemmas |

Supporting modules:

- `JsText` gives JavaScript's string behaviour: the `\s` whitespace set that both `\s` and `trim()` use, `trim`, `replace(/\s/g, '')`, `includes`, the UTF-16 `.length`, and ASCII `toUpperCase`.
- `Decimal` gives number-to-text conversion and its strict inverse.
- `Wrappers` gives `Option` and `Result`.

Stateful code is a class over the fields the source changes in place:

- `AuthProvider` and `ThemeProvider` state each method's effect as
  `State() == AfterX(old(State()), inputs)`. Here `AfterX` is a pure step
  function, and the lemmas about the source's promises are stated over
  those step functions.
- `ReviewForm` states the new value of each of its fields.
- `ApiClient.InterceptResponse` ties its result to `Settle` and the new
  store to `AfterResponse`.

A server call is an input of type `HttpOutcome`: the body that came back,
or an axios failure. In `AuthProvider` and in `ReviewForm.FinishSubmit` it
passes through `ApiClient.InterceptResponse` before it is used, as every
call of the app's service layer does. Calls made by screens outside this
model (chefs, reservations) appear only through
`AuthContext.AfterFailedCall`, the effect a failed call has on the shared
store. In `ThemeProvider`, a storage failure that the source catches and logs is an input flag; storage failures inside `AuthProvider` and the interceptors are not modelled (see "Left out").

### Behaviour of the code worth knowing

- **A 401 does not sign the user out.** On any 401 the response
  interceptor removes the token and user keys, and only comments that
  navigation to login will be handled by AuthContext
  (src/services/api.ts:57-60). `AuthContext` never reacts to that, so the
  in-memory `user` stays set and `isAuthenticated` stays true until logout
  or a restart (src/context/AuthContext.tsx:27, 125).
  `AuthContext.UnauthorizedKeepsUserSignedIn` proves this, and
  `AuthContext.ConsistentPreserved` therefore excludes a 401 on login.
- **The user key can be written without the token.** `refreshUser` writes
  the user key alone (src/context/AuthContext.tsx:105-112), whether or not
  a token is stored. `AuthContext.PairedPreserved` proves that the two keys
  stay present together for every operation except a refresh that succeeds
  while no token is stored.
- **Review payload.** The request type declares four per-dimension scores
  (src/types/review.ts:27-34). The modal sends one `rating` and the
  trimmed comment (src/components/ReviewModal.tsx:63-67), and the model
  follows the modal.

## Model

| member | source | states |
|---|---|---|
| Validation.Email | src/utils/validation.ts:9-12 | `validation.email`, computed by splitting at the first `@` and a later `.`; what it accepts is proved in the three rows below |
| Validation.EmailMatchesRegex | src/utils/validation.ts:9-12 | `email` holds exactly when the text matches `^[^\s@]+@[^\s@]+\.[^\s@]+$`: some `@` and a later `.` split it into three non-empty runs free of whitespace and `@` |
| Validation.EmailToRegex | src/utils/validation.ts:9-12 | every accepted address has such a split |
| Validation.RegexToEmail | src/utils/validation.ts:9-12 | any such split makes the address accepted |
| Validation.EmailHasOneAtAndNoSpace | src/utils/validation.ts:10 | an accepted address holds exactly one `@` and no whitespace |
| Validation.IndexOf | src/utils/validation.ts:10 | the first position of a character, or none when it does not occur |
| Validation.Phone | src/utils/validation.ts:17-20 | `validation.phone`: strip `\s` characters, then test for ten digits after an optional `+90` or `0`; characterised by `Validation.PhoneShapes` |
| Validation.PhoneShapes | src/utils/validation.ts:17-20 | `phone` holds exactly when, once whitespace is removed, the text is ten ASCII digits with an optional `+90` or `0` in front |
| Validation.PhoneIgnoresWhitespace | src/utils/validation.ts:19 | inserting whitespace anywhere never changes the verdict |
| Validation.Password | src/utils/validation.ts:26-28 | `validation.password`: the UTF-16 length is at least 8; bounded by `Validation.PasswordLengthBounds` |
| Validation.PasswordMonotone | src/utils/validation.ts:26-28 | lengthening an accepted password keeps it accepted |
| Validation.PasswordLengthBounds | src/utils/validation.ts:26-28 | 8 code points always suffice, and fewer than 4 never do, because `.length` counts UTF-16 code units |
| Validation.PasswordMatch | src/utils/validation.ts:33-35 | `validation.passwordMatch`: strict string equality |
| Validation.PasswordMatchIsEquivalence | src/utils/validation.ts:33-35 | `passwordMatch` is reflexive, symmetric and transitive |
| Validation.Required | src/utils/validation.ts:40-42 | `validation.required`: the trimmed text is non-empty; characterised by `Validation.RequiredIffNonSpace` |
| Validation.RequiredIffNonSpace | src/utils/validation.ts:40-42 | `required` holds exactly when some character is not whitespace |
| Format.Phone | src/utils/format.ts:45-52 | `format.phone` keeps only the digits, lays exactly ten of them out as `(ddd) ddd-dddd`, and otherwise returns the input unchanged. |
| Format.PhoneLayout | src/utils/format.ts:45-52 | With exactly ten digits, the result is 14 characters long, has `(`, `)`, a space and `-` at positions 0, 4, 5 and 9, and holds the ten digits in their original order at the other positions. |
| Format.PhoneUnchanged | src/utils/format.ts:45-52 | with any other digit count, the input comes back unchanged |
| Format.PhoneKeepsDigits | src/utils/format.ts:45-52 | formatting never adds, drops or reorders a digit |
| Format.PhoneIdempotent | src/utils/format.ts:45-52 | formatting twice is formatting once |
| ChefPhotos.TruncRem3 | src/utils/chefPhotos.ts:18 | JavaScript's `% 3`: the result differs from the dividend by a multiple of 3, lies strictly between -3 and 3, and has the sign of the dividend (zero aside), which is the remainder of a quotient rounded toward zero |
| ChefPhotos.PhotoIndex | src/utils/chefPhotos.ts:18 | `((chefId - 1) % 3) + 1` with the truncating `%` |
| ChefPhotos.PhotoKey | src/utils/chefPhotos.ts:19 | the table key `chef${photoIndex}`, the index written as JavaScript writes an integer |
| ChefPhotos.GetChefPhoto | src/utils/chefPhotos.ts:17-20 | `getChefPhoto`: the table entry under that key, or nothing (`undefined`) when the key is not in the table |
| ChefPhotos.PhotoIndexInRange | src/utils/chefPhotos.ts:17-18 | for every id from 1 up, the photo index lies in 1..3 |
| ChefPhotos.FirstThreeIds | src/utils/chefPhotos.ts:7-11 | ids 1, 2 and 3 get `chef1.jpg`, `chef2.jpg` and `chef3.jpg` |
| ChefPhotos.PhotoIndexPeriodic | src/utils/chefPhotos.ts:17-18 | the photos cycle with period 3 |
| ChefPhotos.PhotoKeyOfIndex | src/utils/chefPhotos.ts:19 | the table key is `chef` followed by the index in decimal, including `chef0` and `chef-1` |
| ChefPhotos.GetChefPhotoDefined | src/utils/chefPhotos.ts:17-20 | `getChefPhoto` finds a photo exactly for ids from 1 up and for non-positive ids congruent to 1 mod 3, and the photo is the table entry at the index; JavaScript's truncating `%` is modelled explicitly |
| ChefPhotos.ShouldUseLocalPhoto | src/utils/chefPhotos.ts:26-28 | `shouldUseLocalPhoto`: the URL is null or empty, or contains `placeholder` or `via.placeholder` |
| ChefPhotos.ShouldUseLocalPhotoIff | src/utils/chefPhotos.ts:26-28 | the local photo is used exactly when the URL is null or empty or contains `placeholder`; the `via.placeholder` test adds nothing |
| ChefPhotos.MissingUrlUsesLocalPhoto | src/utils/chefPhotos.ts:27 | a null or empty URL always falls back to the local photo |
| JsText.StripSpacesSplice | src/utils/validation.ts:19 | `replace(/\s/g, '')` erases inserted whitespace |
| JsText.TrimIsCore | src/utils/validation.ts:41 | `trim()` returns the slice between a whitespace-only prefix and a whitespace-only suffix |
| JsText.TrimEndsNonSpace | src/components/ReviewModal.tsx:66 | the trimmed text, when non-empty, starts and ends with a non-space character |
| JsText.TrimEmptyIffAllSpace | src/utils/validation.ts:41 | `trim()` is empty exactly when every character is whitespace |
| JsText.ContainsIffOccurs | src/utils/chefPhotos.ts:27 | `includes` holds exactly when the needle occurs at some position |
| JsText.ContainsLongerNeedle | src/utils/chefPhotos.ts:27 | containing `prefix + needle` implies containing `needle` |
| JsText.Utf16Length | src/utils/validation.ts:27 | `.length` lies between the code point count and twice that |
| JsText.Utf16LengthAppend | src/utils/validation.ts:27 | `.length` is additive over concatenation |
| JsText.FilterAppend | src/utils/format.ts:46 | a global character filter distributes over concatenation |
| Decimal.NatToStringValue | src/components/chef/ChefCard.tsx:70 | the decimal rendering of a count reads back as the count |
| Decimal.CanonicalDigitsRoundTrip | src/components/chef/ChefCard.tsx:70 | digit text without a leading zero is the rendering of its value |
| Decimal.ParseNatRoundTrip | src/components/chef/ChefCard.tsx:70 | the rendering followed by any non-digit text parses back to the number and that text |
| Decimal.ParseNatCanonical | src/components/chef/ChefCard.tsx:70 | whatever parses is exactly a rendering followed by the rest |
| UserJson.ParseRoleName | src/types/user.ts:5 | each role name reads back as its role |
| UserJson.ParseStringRoundTrip | src/context/AuthContext.tsx:63 | every string, including quotes, backslashes and control characters, survives JSON string quoting and parsing |
| UserJson.ParseStringCanonical | src/context/AuthContext.tsx:41 | a string literal the parser accepts is exactly the quoting of its value |
| UserJson.ParseNullableRoundTrip | src/types/user.ts:13 | `email_verified_at`, a string or `null`, survives encoding and parsing |
| UserJson.EncodeUser | src/context/AuthContext.tsx:63 | `JSON.stringify(response.user)`, with the members in the order of the `User` interface and strings escaped as `JSON.stringify` escapes them |
| UserJson.DecodeUser | src/context/AuthContext.tsx:41 | `JSON.parse` of the stored record: the user, or nothing where parsing throws |
| UserJson.DecodeEncodeUser | src/context/AuthContext.tsx:41 | `JSON.parse(JSON.stringify(user))` gives back the same user |
| UserJson.EncodeDecodeUser | src/context/AuthContext.tsx:41 | a record the decoder accepts is exactly the encoding of what it decodes to |
| UserJson.DecodeRejectsMalformed | src/context/AuthContext.tsx:41-46 | the empty text and every proper prefix of a record, such as a truncated write, are rejected: the parse failure the source catches |
| UserJson.DecodeEncodeUserThen | src/context/AuthContext.tsx:41 | a record followed by any further text is rejected, so no record's text is a prefix of another's |
| Api.Normalize | src/services/api.ts:45-64 | the `ApiError` built for a failure: the status when there is a response; the server's message if non-empty, else axios's own; the server's field errors; the no-response message when the request went out without a reply; the generic message otherwise |
| Api.NormalizedMessageNonEmpty | src/services/api.ts:53 | the error message is non-empty whenever axios's own message is |
| Api.Settle | src/services/api.ts:43-67 | the promise a call settles to: the reply on success, the normalised `ApiError` on failure |
| Api.Rejection | src/services/api.ts:66 | a call rejects exactly when it failed, and with the normalised error |
| Api.AfterFailure | src/services/api.ts:56-61 | the store after a failure: both session keys removed on a 401, unchanged otherwise |
| Api.AfterResponse | src/services/api.ts:43-67 | the store after any reply: unchanged on success, `AfterFailure` on failure |
| Api.UnauthorizedClearsSessionOnly | src/services/api.ts:57-60 | a 401 removes exactly the token and user keys; other failures leave the store alone; clearing again changes nothing |
| Api.WithAuthorization | src/services/api.ts:30-35 | a non-empty stored token sets `Authorization: Bearer <token>` and touches no other header; no token or an empty one leaves the headers unchanged |
| Api.ApiClient.InterceptRequest | src/services/api.ts:29-36 | the outgoing headers are `WithAuthorization` of the token stored at request time |
| Api.ApiClient.InterceptResponse | src/services/api.ts:43-67 | a success passes through; a failure rejects with `Normalize` of it, built field by field; the store changes as `AfterResponse` says |
| AuthContext.AfterCheckAuthStatus | src/context/AuthContext.tsx:35-50 | on launch the store is untouched and loading ends; the user changes only to the record decoded from storage, and only when both keys hold non-empty text |
| AuthContext.IsAuthenticated | src/context/AuthContext.tsx:125 | `isAuthenticated: !!user` |
| AuthContext.AfterAuthCall | src/context/AuthContext.tsx:52-70 | `login` and `register`: on success both keys are written and the user adopted; on failure only the interceptor's 401 clear changes the store |
| AuthContext.AfterLogout | src/context/AuthContext.tsx:92-103 | `logout`: the reply passes the interceptor, then both keys go and the user is null |
| AuthContext.AfterRefreshUser | src/context/AuthContext.tsx:105-118 | `refreshUser`: a fetched user replaces the user key and the user; a failed fetch passes the interceptor and then logs out |
| AuthContext.AfterFailedCall | src/services/api.ts:56-66 | any other service call that fails changes the shared store by the interceptor's 401 clear and nothing else |
| AuthContext.LoginSuccessStoresSession | src/context/AuthContext.tsx:52-70 | a successful login stores the token and the encoded user (which decodes back to the user), signs the user in, and leaves every other key and the loading flag alone |
| AuthContext.LoginFailureKeepsState | src/context/AuthContext.tsx:67-69 | a failed login changes neither the user nor the loading flag; the store changes only by the 401 clear |
| AuthContext.LogoutClearsSession | src/context/AuthContext.tsx:92-103 | whatever the server answers, both keys are gone afterwards, nobody is signed in, and the rest of the store is untouched |
| AuthContext.LogoutIdempotent | src/context/AuthContext.tsx:92-103 | logging out twice is logging out once |
| AuthContext.RefreshSuccessReplacesUser | src/context/AuthContext.tsx:105-112 | a successful refresh stores and adopts the fetched user and keeps the token as it was |
| AuthContext.RefreshFailureIsLogout | src/context/AuthContext.tsx:113-117 | a failed refresh ends in exactly the state a logout would, whatever the failure |
| AuthContext.LoginThenRelaunch | src/context/AuthContext.tsx:35-70 | the session a login persists is the one the next launch restores, provided the token is non-empty |
| AuthContext.PairedPreserved | src/context/AuthContext.tsx:35-118 | every operation keeps the two keys present together, except a refresh that succeeds with no token stored |
| AuthContext.ConsistentPreserved | src/context/AuthContext.tsx:35-118 | every operation keeps the in-memory user equal to the stored record, except a login rejected with 401 |
| AuthContext.UnauthorizedKeepsUserSignedIn | src/services/api.ts:57-61 | after a 401 the keys are gone, but `isAuthenticated` is unchanged and the in-memory user no longer matches the store |
| AuthContext.SessionKeepsOnboardingFlag | src/constants/config.ts:12-16 | no session operation, and no 401, changes the onboarding-completed key stored beside the session keys |
| AuthContext.AuthProvider.constructor | src/context/AuthContext.tsx:27-28 | nobody is signed in and loading is on |
| AuthContext.AuthProvider.CheckAuthStatus | src/context/AuthContext.tsx:35-50 | the new state is `AfterCheckAuthStatus` of the old one |
| AuthContext.AuthProvider.SaveSession | src/context/AuthContext.tsx:56-66 | writes the token, then the encoded user, then adopts the user: the new state is `AfterAuthCall` of a successful reply |
| AuthContext.AuthProvider.Login | src/context/AuthContext.tsx:52-70 | the new state is `AfterAuthCall` of the reply, and the method rethrows exactly the interceptor's rejection |
| AuthContext.AuthProvider.Register | src/context/AuthContext.tsx:72-90 | the same contract as login |
| AuthContext.AuthProvider.Logout | src/context/AuthContext.tsx:92-103 | the new state is `AfterLogout` of the reply |
| AuthContext.AuthProvider.RefreshUser | src/context/AuthContext.tsx:105-118 | the new state is `AfterRefreshUser` of the fetch and the fallback logout's reply |
| ReviewModal.CheckSubmit | src/components/ReviewModal.tsx:50-67 | no rating gives the rating alert; otherwise a whitespace-only comment gives the comment alert; a request goes out exactly when neither applies, and it carries the reservation, the rating and the trimmed comment, which is non-empty |
| ReviewModal.FinishOutcome | src/components/ReviewModal.tsx:68-73 | success calls `onSuccess`; a failure shows an `Error` alert with the error's message, or the fixed fallback when that message is empty |
| ReviewModal.SubmitEnabled | src/components/ReviewModal.tsx:165 | the negation of the button's `disabled` expression: nothing is submitting, a rating is chosen, and the trimmed comment is non-empty |
| ReviewModal.SubmitEnabledIffGuardsPass | src/components/ReviewModal.tsx:165 | the submit button is enabled exactly when nothing is submitting and the guards of `handleSubmit` would send |
| ReviewModal.RatingLabel | src/components/ReviewModal.tsx:131-138 | no label at rating 0; Poor, Fair, Good, Very Good and Excellent for 1 to 5 |
| ReviewModal.RatingLabelsDistinct | src/components/ReviewModal.tsx:133-137 | the five labels differ |
| ReviewModal.ReviewForm.constructor | src/components/ReviewModal.tsx:46-48 | the form starts with rating 0, an empty comment, and not submitting |
| ReviewModal.ReviewForm.PressStar | src/components/ReviewModal.tsx:115-119 | a star sets the rating unless a submission is running; nothing else changes |
| ReviewModal.ReviewForm.EditComment | src/components/ReviewModal.tsx:152-155 | the comment takes the edit, capped at 500 characters, unless a submission is running |
| ReviewModal.ReviewForm.BeginSubmit | src/components/ReviewModal.tsx:50-62 | the outcome is `CheckSubmit` of the form, and `submitting` is set exactly when a request goes out |
| ReviewModal.ReviewForm.FinishSubmit | src/components/ReviewModal.tsx:63-76 | the reply passes through the response interceptor, so a 401 clears the stored session; success resets rating and comment; failure keeps them; `submitting` is cleared either way |
| ReviewModal.ReviewForm.HandleClose | src/components/ReviewModal.tsx:79-85 | closing is ignored while submitting; otherwise it resets the form and closes |
| ThemeContext.ParseMode | src/context/ThemeContext.tsx:62 | a stored value is adopted only if it is exactly one of the three mode names |
| ThemeContext.ParseModeName | src/context/ThemeContext.tsx:62-63 | each mode's stored name reads back as that mode |
| ThemeContext.ParseModeRejects | src/context/ThemeContext.tsx:62 | any other text is ignored |
| ThemeContext.ModeName | src/context/ThemeContext.tsx:10 | the text each mode is stored as |
| ThemeContext.IsDark | src/context/ThemeContext.tsx:83 | `isDark`: the theme is dark, or auto while the system reports dark |
| ThemeContext.Colors | src/context/ThemeContext.tsx:86 | `colors`: the dark palette when `isDark`, otherwise the light one |
| ThemeContext.IsDarkByMode | src/context/ThemeContext.tsx:83 | light is never dark; dark always is; auto is dark exactly when the system reports dark |
| ThemeContext.ColorsIffDark | src/context/ThemeContext.tsx:22-86 | the palette is the dark one exactly when `isDark`, otherwise the light one; the accent is the same in both |
| ThemeContext.AfterLoadTheme | src/context/ThemeContext.tsx:59-68 | loading never changes the store and changes the theme only to the mode whose name is stored, and never after a failed read |
| ThemeContext.AfterSetTheme | src/context/ThemeContext.tsx:73-80 | `setTheme`: a successful write stores the mode's name and switches the theme; a failed write changes neither |
| ThemeContext.SetThenRelaunch | src/context/ThemeContext.tsx:55-79 | a theme that was saved successfully is restored on the next launch, which starts from light |
| ThemeContext.SetThemeFrame | src/context/ThemeContext.tsx:73-79 | a successful `setTheme` switches the theme and writes only the theme key |
| ThemeContext.LoadThemeIdempotent | src/context/ThemeContext.tsx:59-68 | loading twice is loading once |
| ThemeContext.LoadAfterSetKeepsTheme | src/context/ThemeContext.tsx:59-79 | after a successful `setTheme`, reloading the preference changes nothing |
| ThemeContext.ThemeProvider.constructor | src/context/ThemeContext.tsx:55 | the theme starts as light |
| ThemeContext.ThemeProvider.Palette | src/context/ThemeContext.tsx:83-86 | the current palette is the dark one exactly when the current theme is dark for the given system scheme |
| ThemeContext.ThemeProvider.LoadTheme | src/context/ThemeContext.tsx:59-68 | the new state is `AfterLoadTheme` of the old one |
| ThemeContext.ThemeProvider.SetTheme | src/context/ThemeContext.tsx:73-80 | the store is written before the theme changes; a failed write leaves both unchanged |
| ChefCard.MinPrice | src/components/chef/ChefCard.tsx:28 | `Math.min` over the prices is at most every price and is one of them |
| ChefCard.StartingPrice | src/components/chef/ChefCard.tsx:27-29 | null exactly when packages are absent or empty; otherwise at most every package's price and equal to some package's price |
| ChefCard.ShowsFromPrice | src/components/chef/ChefCard.tsx:94 | `startingPrice !== null && startingPrice > 0` |
| ChefCard.ShowsFromPriceIff | src/components/chef/ChefCard.tsx:94-98 | the "From" line shows exactly when there are packages and every one costs more than 0 |
| ChefCard.ShownSpecialties | src/components/chef/ChefCard.tsx:75-83 | at most three tags are shown, and they are the first ones in their original order |
| ChefCard.OverflowLabel | src/components/chef/ChefCard.tsx:84-88 | the `+N` marker appears exactly when there are more than three specialties |
| ChefCard.SpecialtiesAccounted | src/components/chef/ChefCard.tsx:77-88 | the marker's number is exactly how many specialties are hidden; without a marker every specialty is shown |
| ChefCard.CountLine | src/components/chef/ChefCard.tsx:68-103 | a count, a noun with `s` unless the count is 1, and a tail; nothing for a count that is not positive |
| ChefCard.ExperienceLine | src/components/chef/ChefCard.tsx:68-72 | `{experience_years} year{s} of experience`, shown for a positive count |
| ChefCard.ReviewsLine | src/components/chef/ChefCard.tsx:99-103 | `{total_reviews} review{s}`, shown for a positive count |
| ChefCard.CountLineReadsBack | src/components/chef/ChefCard.tsx:68-103 | a count line shows exactly for a positive count and reads back as that count, then the noun with an `s` exactly when the count is not 1 |
| ChefCard.ExperienceAndReviewLines | src/components/chef/ChefCard.tsx:68-103 | the experience line and the reviews line each follow that rule |
| ChefCard.NameOf | src/components/chef/ChefCard.tsx:48-64 | `chef.user?.name` where JavaScript treats it as truthy: present and non-empty |
| ChefCard.DisplayName | src/components/chef/ChefCard.tsx:64 | the user's name when it is present and non-empty, otherwise `Chef` |
| ChefCard.PlaceholderText | src/components/chef/ChefCard.tsx:48 | one character: the upper-cased first letter of the name, or `?` when the name is missing or empty |
| ChefCard.Image | src/components/chef/ChefCard.tsx:39-51 | the profile photo is shown exactly when its URL is non-empty; otherwise the placeholder |
| ChefCard.PlaceholderMatchesName | src/components/chef/ChefCard.tsx:48-64 | the placeholder initial is the first letter of the displayed name; with no name, the card reads `Chef` and `?` |

## Left out

- I/O and timing are not modelled:
  - network transport, timeouts and the base URL;
  - `console.error` logging;
  - navigation, including ChefCard's `handlePress`, which only logs;
  - rendering and styles.
  Server replies and storage failures are inputs.
- Asynchronous interleaving is not modelled: a 401 clear racing a logout, stale responses after unmount, refetch races. Each operation is one atomic step.
- Storage failures inside the interceptors are not modelled: `AsyncStorage.getItem` in the request interceptor (src/services/api.ts:31) and the two `removeItem` calls on a 401 (src/services/api.ts:58-59). A throw there would reject the call with the storage error instead of the `ApiError`; the model assumes the store succeeds.
- Storage failures inside `AuthProvider` are not modelled. `AsyncStorage` there is assumed to succeed, so a write that throws midway through `login` is not captured. In `ThemeProvider`, read and write failures are modelled because the source catches them.
- `UserJson.DecodeUser`: `JSON.parse` is modelled as a strict decoder of the canonical text that `UserJson.EncodeUser` writes. Text that JavaScript would also accept is rejected here: other whitespace, key order, escape spellings, non-integer ids, or values that are not a `User`.
- `UserJson.EncodeUser`: `JSON.stringify(response.user)` writes the server object's own member order and any members beyond the `User` interface. The model fixes the interface order and drops unknown members. What the source relies on, that parsing the stored text gives back the user, still holds there, because `JSON.parse` undoes `JSON.stringify` on JSON data.
- `User.id` is a natural number. Non-integer, negative or very large JSON numbers are not modelled.
- `ChefPhotos`: chef ids are integers, and fractional ids are not modelled. `require` of an image asset is an opaque `Photo` value.
- `ChefPhotos.GetChefPhotoDefined`: ids of 0 and below, which the source does not expect, give no photo except when `(id - 1) % 3 == 0`. The model states this as the code does it.
- `ChefCard.PlaceholderText`: `toUpperCase` is modelled for ASCII letters only. Other letters are left as they are, so Unicode case mapping is not captured.
- `ChefCard.PlaceholderText`: `[0]` is taken as the first code point. JavaScript takes the first UTF-16 unit, which differs for characters outside the Basic Multilingual Plane.
- `ChefCard`: experience years and review counts are integers, written in full decimal digits. A fractional value would render differently, and so would a count of 1e21 or more, which JavaScript writes in exponent form (`1e+21`); counts above 2^53 also lose precision in JavaScript. None of this is modelled.
- `ChefCard`: prices are exact reals. Floating-point rounding is not modelled.
- Left out because they use library locale and floating-point formatting:
  - the rating badge (`rating.toFixed(1)`);
  - `format.price` in the "From" line, which is modelled only as whether the line shows;
  - `format.date` and `format.datetime`.
- `ReviewModal.ReviewForm.EditComment`: the native `maxLength` limit is modelled as truncation to 500 code points. The widget's own handling of UTF-16 units and of pasted text is not captured.
- `ReviewModal`: `chefName`, `visible` and the `onClose`/`onSuccess` callbacks are modelled only as their outcome. `HandleClose` returns whether `onClose` ran, and `FinishOutcome` says whether `onSuccess` ran.
- The onboarding screen, which sets the onboarding-completed key (app/(auth)/onboarding.tsx:70), is not modelled; the model only proves that no session operation touches that key.
- REST wrappers (`src/services/auth.ts`, `chefs.ts`, `reservations.ts`, `reviews.ts`) are one-call wrappers. They appear only as the `HttpOutcome` of each call.
- `Validation`: `email` and `phone` are modelled on the language those regular expressions accept, not by running a regex engine.
