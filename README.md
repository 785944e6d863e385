# UI primitives: class-name composition and variant resolution

This project models the logic in `components/ui/index.jsx`. That file defines a set of
styled React primitives (Button, Input, Card, Modal, Navbar, Alert) and the
class-name composer `cn` that they use. The model and its proofs cover:

- **`cn(...classes)`** (module `ClassNames`). It keeps the truthy arguments and turns
  each into its string form. It joins them with a single space, in argument order.
  It does not trim, deduplicate or validate anything.
- **Variant resolution** (module `Styled`). Button looks `variant` (default `primary`)
  and `size` (default `md`) up in fixed tables. It then composes base, variant, size
  and the caller's `className`, in that order. Alert does the same with one variant
  table (default `info`). Input and Card compose their base with `className`. A key
  that is not in a table gives `undefined`, and `cn` drops it.
- **Modal** (module `Modal`). It renders nothing when `isOpen` is falsy. Otherwise it
  renders an overlay with a header (the title and a `×` button), a body (the
  children) and a footer (a secondary Button). Both buttons call `onClose`.
- **Navbar** (module `Navbar`). It maps `links` (default `[]`) to one anchor per
  link, keyed by position, with `href` and label copied through.

JavaScript values are modelled by `Js.Value`: `undefined`, `null`, booleans,
safe integers (magnitude at most 2^53 - 1) and strings. Two operations on them are modelled: truthiness (`Boolean(v)`)
and string conversion (`String(v)`). `join` uses string conversion, and so does
property lookup with a non-string key. A destructuring default (`variant = 'primary'`)
applies to `undefined` only, and the model keeps that: a `null` variant is looked up
as the key `"null"` and is dropped.

Two details of the code are easy to miss:

- Modal tests `isOpen` for truthiness, not for a boolean.
- Navbar's `links = []` default does not cover `null`. With `null`, `links.map`
  throws, and so does `link.href` for a `null` or `undefined` entry of the array.
  In both cases `Navbar.Render` returns an error.

## Model

| member | source | states |
|---|---|---|
| `Js.Truthy` | components/ui/index.jsx:8 | `Boolean(v)`: falsy exactly for `undefined`, `null`, `false`, `0` and `""`; every other modelled value is truthy |
| `Js.Digits` | components/ui/index.jsx:8 | The decimal digits of a natural number: digits only, no leading zero for a positive number, one digit exactly below 10, and read back as a decimal numeral they give the number |
| `Js.Numeral` | components/ui/index.jsx:8 | `String(n)` for a safe integer is its plain decimal numeral: a `-` exactly when `n` is negative, then digits with no leading zero (unless the number is 0) that read back as its magnitude, and no exponent; it is non-empty and has no space |
| `Js.NumeralNoLeadingZero` | components/ui/index.jsx:8 | The digits of a non-zero number's numeral never start with `0`, after the sign for a negative number (`"-5"`, never `"-05"`) |
| `Js.ToString` | components/ui/index.jsx:8 | `String(v)`: the form `join` gives each kept (truthy) argument, and the key a property lookup uses. A string is itself; every other kind is non-empty and has no space; a number gives its plain decimal numeral (`IsNumeral`); a truthy value never gives `""` |
| `ClassNames.Kept` | components/ui/index.jsx:8 | `filter(Boolean)` keeps no more entries than it is given, and none of the kept strings is empty |
| `ClassNames.Join` | components/ui/index.jsx:8 | `join` of non-empty strings is empty exactly when there are no strings |
| `ClassNames.Cn` | components/ui/index.jsx:7-9 | `cn` returns `""` exactly when no argument is truthy; this covers no arguments and only falsy arguments |
| `ClassNames.Positions` | components/ui/index.jsx:8 | Reference description of what is kept: the positions of exactly the truthy arguments, in strictly increasing order |
| `ClassNames.KeptByPositions` | components/ui/index.jsx:8 | The k-th kept class is the string form of the k-th truthy argument. There is one class per truthy argument, in order, and repeats are kept |
| `ClassNames.KeptAppend` | components/ui/index.jsx:8 | Filtering distributes over concatenation of argument lists |
| `ClassNames.JoinAppend` | components/ui/index.jsx:8 | Joining two non-empty lists is joining each and putting one separator between them |
| `ClassNames.CnAppend` | components/ui/index.jsx:7-9 | `cn(a..., b...)` is `cn(a...)` and `cn(b...)` with one space between them, and with no space when either side is empty |
| `ClassNames.CnAfterFirst` | components/ui/index.jsx:7-9 | After a truthy first argument, each later truthy argument adds one space and its text, in order, and each falsy one adds nothing |
| `ClassNames.JoinAfterFirst` | components/ui/index.jsx:8 | A first class joined with the kept later arguments is the first class followed by one space and the text of each later truthy argument |
| `ClassNames.CnIgnoresFalsy` | components/ui/index.jsx:8 | Inserting one falsy argument anywhere leaves the result unchanged |
| `ClassNames.CnDropsFalsy` | components/ui/index.jsx:8 | The result equals `cn` of the truthy arguments alone |
| `ClassNames.CnSameTruthy` | components/ui/index.jsx:8 | Two argument lists with the same truthy arguments in the same order give the same result, whatever falsy arguments they hold and wherever |
| `ClassNames.CnSingle` | components/ui/index.jsx:8 | One truthy argument among falsy ones comes back as its string form (the string itself for a string) |
| `ClassNames.CnSplit` | components/ui/index.jsx:7-9 | When at least one argument is truthy and no class contains a space, splitting the result on `' '` gives back exactly the kept classes, in order and with repeats |
| `ClassNames.SplitJoin` | components/ui/index.jsx:8 | Splitting a space-joined list of space-free words gives the list back (the inverse of `join`) |
| `ClassNames.CnWellSpaced` | components/ui/index.jsx:7-9 | Classes with no leading, trailing or doubled space compose into a string without them: `cn` adds only single separators |
| `ClassNames.JoinWellSpaced` | components/ui/index.jsx:8 | Joining well-spaced non-empty strings with one space gives a well-spaced string |
| `ClassNames.CnBaseThen1` | components/ui/index.jsx:58-61 | `cn(base, x)` is the base, then one space and `x` when `x` is truthy |
| `ClassNames.CnBaseThen2` | components/ui/index.jsx:150 | `cn(base, v, x)` is the base, then each truthy one of `v`, `x` after one space, in that order |
| `ClassNames.CnBaseThen3` | components/ui/index.jsx:39 | `cn(base, v, s, x)` is the base, then each truthy one of `v`, `s`, `x` after one space, in that order |
| `Styled.OrDefault` | components/ui/index.jsx:18 | A destructuring default replaces `undefined` only: any other value, `null` included, is kept as given, and the result is never `undefined` |
| `Styled.Lookup` | components/ui/index.jsx:39 | `table[key]` converts the key to its string form; it gives that entry when the table declares the key and `undefined` otherwise, and a string key declared in the table finds its own entry |
| `Styled.ButtonClass` | components/ui/index.jsx:16-46 | The Button's class string is the base classes, then the variant's entry, the size's entry and a truthy override, each after one space; an undeclared key or a falsy override adds nothing. It always starts with the base classes |
| `Styled.ButtonClassShape` | components/ui/index.jsx:21-39 | Exact Button class string: base, then the variant entry, the size entry and a truthy override. Each comes after one space, and an undeclared key or a falsy override is left out |
| `Styled.ButtonDeclared` | components/ui/index.jsx:23-39 | A declared variant and size give base, variant classes, size classes and override, in that order |
| `Styled.ButtonDefaults` | components/ui/index.jsx:18 | Variant and size left undefined resolve as `primary` and `md` |
| `Styled.ButtonUnknownVariant` | components/ui/index.jsx:23-39 | An undeclared variant is dropped silently; base, size and override remain |
| `Styled.ButtonUnknownSize` | components/ui/index.jsx:30-39 | An undeclared size is dropped silently; base, variant and override remain |
| `Styled.ButtonOverrideLast` | components/ui/index.jsx:39 | A truthy `className` is always the last thing in the string, after one space |
| `Styled.InputClass` | components/ui/index.jsx:54-65 | Input's class string is the base followed by a truthy override, and equals the base when there is no override |
| `Styled.CardClass` | components/ui/index.jsx:73-79 | Card's class string is the base followed by a truthy override, and equals the base when there is no override |
| `Styled.AlertClass` | components/ui/index.jsx:142-154 | The Alert's class string is `p-4 rounded-md`, then the variant's entry and a truthy override, each after one space; an undeclared variant or a falsy override adds nothing. It always starts with `p-4 rounded-md` |
| `Styled.AlertClassShape` | components/ui/index.jsx:143-150 | Exact Alert class string: base, then the variant entry if declared, then a truthy override, each after one space |
| `Styled.AlertDeclared` | components/ui/index.jsx:143-150 | A declared variant gives base, variant classes and override, in that order |
| `Styled.AlertDefault` | components/ui/index.jsx:142 | A variant left undefined resolves as `info` |
| `Styled.AlertUnknownVariant` | components/ui/index.jsx:143-150 | An undeclared variant gives the base and the override only |
| `Modal.Render` | components/ui/index.jsx:87-110 | Nothing is rendered exactly when `isOpen` is falsy. When open, the overlay holds one panel whose regions are the header, the body and the footer; the title and the children each appear once, title first, and exactly two controls (both buttons) call `onClose` |
| `Modal.RegionContents` | components/ui/index.jsx:92-106 | The header holds the title and one close button. The body holds the children and nothing clickable. The footer holds the other close button |
| `Modal.OpenLayout` | components/ui/index.jsx:89-109 | The open overlay holds, in document order, the title and the children, and two `onClose` buttons |
| `Modal.RenderDependsOnTruthiness` | components/ui/index.jsx:88 | Only the truthiness of `isOpen` matters; the modal keeps no visibility state of its own |
| `Navbar.Anchors` | components/ui/index.jsx:123-127 | One anchor per link, in input order. The anchor at position i has key i and the link's `href` and label |
| `Navbar.Descriptors` | components/ui/index.jsx:123-125 | Reading `.href` and `.label` succeeds exactly when every entry is an object; the descriptors then come back one per entry, in order |
| `Navbar.Render` | components/ui/index.jsx:117-128 | A missing `links` gives zero anchors. It fails exactly when `links` is `null` or an entry is `null` or `undefined`. Otherwise there is one anchor per entry, in order, with key i and that entry's `href` and label |
| `Navbar.AnchorsRoundTrip` | components/ui/index.jsx:123-127 | Reading the links back off the anchors gives the input list: nothing is dropped, merged, reordered or altered |
| `Navbar.AnchorKeysDistinct` | components/ui/index.jsx:123-124 | The index keys are pairwise distinct, even for equal links |
| `Navbar.AnchorsAppend` | components/ui/index.jsx:123-127 | Anchors of a concatenation are the first list's anchors followed by the second's, with keys shifted by the first list's length |
| `Navbar.DuplicatesKept` | components/ui/index.jsx:123-127 | Two equal links `/a`/`A` give two anchors, keyed 0 and 1 |

## Left out

- The sign-in and sign-up pages (`src/app/auth/sign-in/page.jsx`, `src/app/auth/sign-up/page.jsx`) are not part of this model. Their only logic is `if (isSignedIn) router.push("/dashboard")` inside an effect. Both the auth provider and the router are external. Whether navigation happens at most once is decided by React's effect dependencies, which the code does not show.
- `console.log` calls: diagnostic output only.
- React mechanics are not modelled: `forwardRef`/`ref`, element construction, and the DOM itself.
- Prop pass-through (`...props`) is not modelled. Button forwards every prop except `variant`, `size`, `className` and `children`. Input forwards every prop except `className`. Card forwards every prop except `className` and `children`. Alert forwards nothing.
- CSS cascade ("a later class wins") is not modelled. It is a property of the browser, not of the string logic.
- The fixed class strings and labels inside Modal and Navbar are not modelled. This includes Navbar's title slot and its always-present sign-in Button. The Modal tree keeps elements, click handlers and caller content only.
- The Modal footer control is the Button primitive with `variant="secondary"`. The tree records it as a button wired to `onClose`; its class string is not tied to `Styled.ButtonClass`.
- `useState` is imported but never used, so there is no component state.
- `Js.ToString` covers only `undefined`, `null`, booleans, safe integers and strings. Numbers outside the safe-integer range are not modelled; from 10^21 up, JavaScript prints them in exponent notation (`1e+21`). Fractions, `NaN`, objects, arrays, functions, symbols and BigInt are not modelled. An object `className`, for example, would add `[object Object]` in JavaScript.
- `Styled.Lookup`: each table is treated as a plain map, so any key not declared in it is missing. In JavaScript, an inherited `Object.prototype` key such as `constructor` or `toString` finds a function instead. `cn` would then add that function's source text to the class string. The model does not capture this.
- `Navbar.Render`: `links` is either missing, `null` or an array, and an array entry is a descriptor object, `null` or `undefined`. Other values in either place (numbers, strings, non-array objects) are not modelled. Each descriptor's `href` and label are strings; a descriptor that lacks one, which JavaScript reads as `undefined`, is not modelled.
