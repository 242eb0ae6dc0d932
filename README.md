# Newsletter signup and team roster of the investor landing page

The landing page is presentational markup except for two pieces of logic,
and this project models those two:

- **The newsletter signup form** (`src/components/NewsletterSignup.tsx`).
  `validateEmail` tests `^[^\s@]+@[^\s@]+\.[^\s@]+$`. `handleSubmit` moves the
  component state (`email`, `isSubmitting`, `formState`, `errorMessage`)
  from idle or error to submitting. The simulated request then settles into
  success. The page derives which controls are disabled, the button label
  and the alerts from that state.
- **The about section** (`src/components/AboutSection.tsx`). It falls back
  to a default title, vision and three-member roster, and shows one card
  per member. Each card's avatar fallback is
  `name.split(" ").map(n => n[0]).join("")`.

Files, one module each unless noted:

- `base.dfy`: `Option`, `Count` and `IndexOf`, shared helpers.
- `email.dfy` (modules `EmailValidator` and `EmailExamples`): `ValidEmail`
  decides the regular expression by locating the first `@`. Two lemmas
  prove it agrees, in both directions, with the expression's language
  stated as `L + "@" + A + "." + B`, where each part matches `[^\s@]+`.
  `A` may itself hold dots.
- `newsletter.dfy` (module `Newsletter`): the form as values (`Form`,
  `Step`, `Run`), an invariant of every reachable state, and the component
  itself as the class `SignupForm`. Each of the class's methods is proved
  to take exactly one `Step`. The suspended `await` of `handleSubmit` is
  the field `pending`, and the timer firing is the method `Settle`.
- `initials.dfy` (module `Avatar`): `split` and `join` as JavaScript
  defines them, `n[0]` as `join` renders it, and `WordStarts`, an
  independent description of the result.
- `about.dfy` (module `About`): props, defaults and the cards.

`errorMessage` is never cleared: the valid branch of `handleSubmit`
(src/components/NewsletterSignup.tsx:48-49) leaves it alone. After a
rejected submit followed by a valid one, it keeps the old text while the
form is idle and submitting. `Newsletter.StaleErrorMessage` shows this.
The invariant proved allows `""` or the invalid-address message, and
requires the message whenever the form is in error.

## Model

| member | source | states |
|---|---|---|
| `EmailValidator.IsWs` | src/components/NewsletterSignup.tsx:35 | no contract of its own: the code points `\s` matches in an ECMAScript regular expression (the WhiteSpace and LineTerminator sets) |
| `EmailValidator.ValidEmail` | src/components/NewsletterSignup.tsx:34-37 | an accepted string holds an `@` and has at least five characters; `ValidEmailOfParts` and `ValidEmailSplit` prove it accepts exactly the regex's language |
| `EmailValidator.ValidEmailOfParts` | src/components/NewsletterSignup.tsx:34-37 | any non-empty local part, domain label and final label free of whitespace and `@` give an accepted address (the regex's language is contained in what `validateEmail` accepts) |
| `EmailValidator.ValidEmailSplit` | src/components/NewsletterSignup.tsx:34-37 | every accepted string splits as `L + "@" + A + "." + B` with each part non-empty and free of whitespace and `@` (the converse direction) |
| `EmailValidator.AcceptedEmailHasOneAt` | src/components/NewsletterSignup.tsx:35 | an accepted address holds exactly one `@` |
| `EmailValidator.AcceptedEmailHasNoWs` | src/components/NewsletterSignup.tsx:35 | an accepted address holds no `\s` character |
| `EmailExamples.AcceptsPlainAddress` | src/components/NewsletterSignup.tsx:35 | `"a@b.com"` is accepted |
| `EmailExamples.AcceptsExampleAddress` | src/components/NewsletterSignup.tsx:35 | `"user@example.com"` is accepted |
| `EmailExamples.RejectsMissingAt` | src/components/NewsletterSignup.tsx:35 | `""` and `"bad"` are rejected |
| `EmailExamples.RejectsMissingDot` | src/components/NewsletterSignup.tsx:35 | `"a@b"` is rejected (no dot after the `@`) |
| `EmailExamples.RejectsEmptyDomainLabel` | src/components/NewsletterSignup.tsx:35 | `"a@.com"` is rejected (nothing between `@` and dot) |
| `EmailExamples.RejectsEmptyFinalLabel` | src/components/NewsletterSignup.tsx:35 | `"a@b."` is rejected (nothing after the last dot) |
| `EmailExamples.RejectsSpace` | src/components/NewsletterSignup.tsx:35 | `"a b@c.d"` is rejected (whitespace in the local part) |
| `Newsletter.ResolveSignupProps` | src/components/NewsletterSignup.tsx:18-25 | each omitted prop takes its default (`"Subscribe"` for the button, and so on); each supplied prop is used verbatim |
| `Newsletter.Enabled` | src/components/NewsletterSignup.tsx:96-101 | no contract of its own: neither a request in flight nor success; `Render` proves both controls are disabled exactly when it fails |
| `Newsletter.AfterSubmit` | src/components/NewsletterSignup.tsx:39-50 | the email is kept; an invalid one yields error plus the invalid-address message and nothing else changes; a valid one yields submitting, idle and a pending request with the old error text kept; from an enabled state satisfying the invariant, the result satisfies it |
| `Newsletter.AfterSettle` | src/components/NewsletterSignup.tsx:53-69 | success, empty input, no request in flight, controls disabled, error text kept; the invariant is preserved |
| `Newsletter.Step` | src/components/NewsletterSignup.tsx:39-101 | every event keeps the reachable-state invariant; nothing changes a succeeded form; a submit while a request is in flight does nothing; success is entered only by the timer of a pending request; the input text changes only by editing or by settling |
| `Newsletter.Run` | src/components/NewsletterSignup.tsx:27-101 | any event sequence keeps the invariant, and from a succeeded state leaves the form unchanged |
| `Newsletter.ReachableStates` | src/components/NewsletterSignup.tsx:27-101 | every state reachable from mount satisfies the invariant: `isSubmitting` and success never hold together, and the error state always carries the invalid-address message |
| `Newsletter.SuccessIsFinal` | src/components/NewsletterSignup.tsx:96-101 | once a reachable run has succeeded, no further events change anything; there is no reset |
| `Newsletter.SubscribeFlow` | src/components/NewsletterSignup.tsx:42-69 | typing a valid address and submitting gives `isSubmitting = true`, idle, the same email and an untouched message; the timer then gives success, `email = ""` and `isSubmitting = false` |
| `Newsletter.RejectFlow` | src/components/NewsletterSignup.tsx:42-46 | submitting an invalid address gives the error state and the invalid-address message, keeps the email and starts no request |
| `Newsletter.StaleErrorMessage` | src/components/NewsletterSignup.tsx:42-49 | after `"a@b"` is rejected (an address a browser's `type="email"` check lets through), correcting it and submitting starts the request while `errorMessage` keeps the old text |
| `Newsletter.SubscribeExample` | src/components/NewsletterSignup.tsx:42-69 | the run with `"user@example.com"` ends in success with an empty input |
| `Newsletter.Render` | src/components/NewsletterSignup.tsx:90-122 | the input shows `email` and the placeholder; input and button are disabled exactly when submitting or succeeded; the label is `"Subscribing..."` while submitting and `buttonText` otherwise; the success alert shows exactly in success, the error alert (with `errorMessage`) exactly in error, none when idle |
| `Newsletter.ReachableViews` | src/components/NewsletterSignup.tsx:96-122 | in every reachable state: while a request is pending the controls are disabled, the label is busy and no alert shows; the success alert comes with disabled controls, an empty input and the normal label; the error alert reads the invalid-address message with the controls enabled |
| `Newsletter.SignupForm.constructor` | src/components/NewsletterSignup.tsx:18-32 | mount: props resolved, `email = ""`, not submitting, idle, empty message, nothing pending |
| `Newsletter.SignupForm.ChangeEmail` | src/components/NewsletterSignup.tsx:94-96 | the input's change handler sets `email` while the input is enabled, and changes nothing else |
| `Newsletter.SignupForm.HandleSubmit` | src/components/NewsletterSignup.tsx:39-50 | the new state is one submit `Step` of the old; an invalid email sets error and the message and leaves `email`, `isSubmitting` and `pending` alone; a valid one sets `isSubmitting`, idle and a pending request and leaves `email` and `errorMessage` alone |
| `Newsletter.SignupForm.Submit` | src/components/NewsletterSignup.tsx:88-101 | a submit gesture runs `handleSubmit` while the controls are enabled and otherwise changes nothing |
| `Newsletter.SignupForm.Settle` | src/components/NewsletterSignup.tsx:53-69 | the timer firing gives success, `email = ""`, `isSubmitting = false`, keeps `errorMessage`, and leaves the controls disabled |
| `Avatar.Join` | src/components/AboutSection.tsx:67-69 | no contract of its own: `Array.prototype.join`; `JoinSplit` and `SplitJoin` prove it inverts `Split` |
| `Avatar.Lead` | src/components/AboutSection.tsx:67 | `n[0]` as `join` renders it: a prefix of the piece, one character long, or empty for the empty piece |
| `Avatar.Leads` | src/components/AboutSection.tsx:67 | `map(n => n[0])`: one lead per piece, in order |
| `Avatar.Initials` | src/components/AboutSection.tsx:66-69 | no contract of its own: the avatar fallback; `InitialsAreWordStarts`, `InitialsLength` and `InitialsFromName` characterise it |
| `Avatar.Split` | src/components/AboutSection.tsx:67 | `split(" ")` yields one more piece than there are spaces, and no piece contains a space |
| `Avatar.JoinSplit` | src/components/AboutSection.tsx:67 | joining the pieces of a split with the separator gives back the name |
| `Avatar.SplitJoin` | src/components/AboutSection.tsx:67 | splitting a join of separator-free pieces gives back the pieces |
| `Avatar.InitialsAreWordStarts` | src/components/AboutSection.tsx:66-69 | the avatar fallback is exactly the non-space characters that open the name or follow a space, in order |
| `Avatar.InitialsLength` | src/components/AboutSection.tsx:66-69 | the fallback has one character per non-empty piece, so leading, trailing and doubled spaces add nothing, and it never exceeds the number of spaces plus one |
| `Avatar.InitialsFromName` | src/components/AboutSection.tsx:66-69 | every character of the fallback is a non-space character of the name, and they appear in the name's order |
| `Avatar.InitialsOfWords` | src/components/AboutSection.tsx:66-69 | words joined by single spaces give one initial per word, its first character |
| `Avatar.InitialsWithoutSpace` | src/components/AboutSection.tsx:66-69 | a name without the space character gives its first character, and the empty name gives `""` |
| `Avatar.InitialsExamples` | src/components/AboutSection.tsx:67 | a tab does not separate (`"Ada\tLovelace"` gives `"A"`), and `""` gives `""` |
| `About.Card` | src/components/AboutSection.tsx:56-79 | no contract of its own: one member's card; `RenderAbout` states every card's fields |
| `About.RenderAbout` | src/components/AboutSection.tsx:22-80 | title and vision take their defaults only when omitted; the supplied roster, or else the default one, becomes one card per member in order, keyed by position, with the member's name, image, role, bio and initials |
| `About.TwoWordInitials` | src/components/AboutSection.tsx:66-69 | a two-word name gives the first characters of both words |
| `About.DefaultInitialsAJ` | src/components/AboutSection.tsx:27 | `"Alex Johnson"` gives `"AJ"` |
| `About.DefaultInitialsSC` | src/components/AboutSection.tsx:33 | `"Sarah Chen"` gives `"SC"` |
| `About.DefaultInitialsMR` | src/components/AboutSection.tsx:39 | `"Michael Rodriguez"` gives `"MR"` |
| `About.DefaultRoster` | src/components/AboutSection.tsx:25-44 | without a roster prop the cards are Alex Johnson, Sarah Chen and Michael Rodriguez, in that order, with fallbacks AJ, SC and MR |

## Left out

- The `catch` branch of `handleSubmit` (src/components/NewsletterSignup.tsx:64-66) is not modelled. The simulated timer promise never rejects, so the branch cannot run. The invariant therefore admits only the invalid-address message.
- The 1000 ms delay is not modelled as time. The timer firing is an event (`TimerFires`, `SignupForm.Settle`) that can happen only while a request is pending.
- The browser's own constraint validation is not modelled. The input is `type="email"` and `required` (lines 91, 97), and a browser may refuse to fire the submit event for an empty or malformed value. The model delivers every enabled submit to `handleSubmit`.
- `e.preventDefault()` (line 40) is not modelled, because page navigation is not part of the model.
- React's re-rendering and state batching are not modelled. Each handler's updates are applied to the fields in order; no handler reads a field after writing it, so the final state is the same.
- `IsWs` is the ECMAScript whitespace and line-terminator set for Unicode scalar values. JavaScript strings are UTF-16: `n[0]` of a name starting with a character outside the Basic Multilingual Plane yields half of a surrogate pair, while `Avatar.Lead` yields the whole character.
- The JSX markup, CSS classes, icons, fixed copy (the success text, the privacy note) and the framer-motion entrance animations are not modelled, because they are presentation only.
- src/components/Navbar.tsx, src/components/HeroSection.tsx, src/components/ProductPreview.tsx and src/components/home.tsx are not part of this model. They hold no state or logic of their own; the hero's click handler defaults to a logging stub.
