/** Variant resolution of the styled primitives: each one looks its variant and
    size props up in a fixed table and hands base, variant, size and the caller's
    `className` to `cn`, in that order. */
module Styled {
  import opened Js
  import opened ClassNames

  const BUTTON_BASE := "inline-flex items-center justify-center font-medium rounded-md focus:outline-none focus:ring-2 focus:ring-offset-2"

  const BUTTON_VARIANTS: map<string, string> := map[
    "primary" := "bg-blue-600 text-white hover:bg-blue-700 focus:ring-blue-500",
    "secondary" := "bg-gray-200 text-gray-800 hover:bg-gray-300 focus:ring-gray-500",
    "destructive" := "bg-red-600 text-white hover:bg-red-700 focus:ring-red-500"
  ]

  const BUTTON_SIZES: map<string, string> := map[
    "sm" := "px-2 py-1 text-sm",
    "md" := "px-4 py-2 text-base",
    "lg" := "px-6 py-3 text-lg"
  ]

  const INPUT_BASE := "block w-full rounded-md border-gray-300 shadow-sm focus:border-blue-500 focus:ring-blue-500"

  const CARD_BASE := "bg-white shadow rounded-lg p-6"

  const ALERT_BASE := "p-4 rounded-md"

  const ALERT_VARIANTS: map<string, string> := map[
    "info" := "bg-blue-100 text-blue-700",
    "success" := "bg-green-100 text-green-700",
    "warning" := "bg-yellow-100 text-yellow-700",
    "error" := "bg-red-100 text-red-700"
  ]

  /** The props a primitive reads; every other prop is passed through untouched. */
  datatype ButtonProps = ButtonProps(variant: Value, size: Value, className: Value)

  datatype AlertProps = AlertProps(variant: Value, className: Value)

  /** A destructuring default `{ p = d }`: it applies to `undefined` only. */
  function OrDefault(v: Value, default: string): (r: Value)
    ensures v.Undefined? ==> r == Str(default)
    ensures !v.Undefined? ==> r == v
    ensures !r.Undefined?
  {
    if v.Undefined? then Str(default) else v
  }

  /** `table[key]`: the key is converted to a string, and a missing key gives `undefined`. */
  function Lookup(table: map<string, string>, key: Value): (r: Value)
    ensures r.Str? || r.Undefined?
    ensures r.Str? <==> ToString(key) in table
    ensures r.Str? ==> r.s == table[ToString(key)]
    ensures key.Str? && key.s in table ==> r == Str(table[key.s])
  {
    var k := ToString(key);
    if k in table then Str(table[k]) else Undefined
  }

  /** What a table lookup adds to the class string: one space and the entry,
      or nothing when the key is not declared. */
  function Slot(table: map<string, string>, key: Value): string {
    var k := ToString(key);
    if k in table then " " + table[k] else ""
  }

  function ButtonVariantKey(p: ButtonProps): Value { OrDefault(p.variant, "primary") }

  function ButtonSizeKey(p: ButtonProps): Value { OrDefault(p.size, "md") }

  function AlertVariantKey(p: AlertProps): Value { OrDefault(p.variant, "info") }

  /** The `className` of the rendered `<button>`: the base classes, then the
      variant's entry, the size's entry and a truthy override, each after one
      space; an undeclared key or a falsy override adds nothing. */
  function ButtonClass(p: ButtonProps): (r: string)
    ensures r == BUTTON_BASE + Slot(BUTTON_VARIANTS, ButtonVariantKey(p)) + Slot(BUTTON_SIZES, ButtonSizeKey(p)) + Part(p.className)
    ensures |BUTTON_BASE| <= |r| && r[..|BUTTON_BASE|] == BUTTON_BASE
  {
    ButtonClassShape(p);
    Cn([Str(BUTTON_BASE), Lookup(BUTTON_VARIANTS, ButtonVariantKey(p)),
        Lookup(BUTTON_SIZES, ButtonSizeKey(p)), p.className])
  }

  /** The `className` of the rendered `<input>`: the base, then the override if it is truthy. */
  function InputClass(className: Value): (r: string)
    ensures r == INPUT_BASE + Part(className)
    ensures !Truthy(className) ==> r == INPUT_BASE
  {
    CnBaseThen1(INPUT_BASE, className);
    Cn([Str(INPUT_BASE), className])
  }

  /** The `className` of the Card's `<div>`: the base, then the override if it is truthy. */
  function CardClass(className: Value): (r: string)
    ensures r == CARD_BASE + Part(className)
    ensures !Truthy(className) ==> r == CARD_BASE
  {
    CnBaseThen1(CARD_BASE, className);
    Cn([Str(CARD_BASE), className])
  }

  /** The `className` of the Alert's `<div>`: the base classes, then the
      variant's entry and a truthy override, each after one space; an undeclared
      variant or a falsy override adds nothing. */
  function AlertClass(p: AlertProps): (r: string)
    ensures r == ALERT_BASE + Slot(ALERT_VARIANTS, AlertVariantKey(p)) + Part(p.className)
    ensures |ALERT_BASE| <= |r| && r[..|ALERT_BASE|] == ALERT_BASE
  {
    AlertClassShape(p);
    Cn([Str(ALERT_BASE), Lookup(ALERT_VARIANTS, AlertVariantKey(p)), p.className])
  }

  // ---------------------------------------------------------------------------

  lemma LookupPart(table: map<string, string>, key: Value)
    requires forall k :: k in table ==> table[k] != ""
    ensures Part(Lookup(table, key)) == Slot(table, key)
  {
  }

  /** The Button's class string, exactly: base, then the variant's entry, the
      size's entry and the override, each after one space and each omitted when
      the lookup misses or the override is falsy. */
  lemma ButtonClassShape(p: ButtonProps)
    ensures Cn([Str(BUTTON_BASE), Lookup(BUTTON_VARIANTS, ButtonVariantKey(p)),
                Lookup(BUTTON_SIZES, ButtonSizeKey(p)), p.className])
         == BUTTON_BASE + Slot(BUTTON_VARIANTS, ButtonVariantKey(p)) + Slot(BUTTON_SIZES, ButtonSizeKey(p)) + Part(p.className)
  {
    CnBaseThen3(BUTTON_BASE, Lookup(BUTTON_VARIANTS, ButtonVariantKey(p)),
                Lookup(BUTTON_SIZES, ButtonSizeKey(p)), p.className);
    LookupPart(BUTTON_VARIANTS, ButtonVariantKey(p));
    LookupPart(BUTTON_SIZES, ButtonSizeKey(p));
  }

  lemma AlertClassShape(p: AlertProps)
    ensures Cn([Str(ALERT_BASE), Lookup(ALERT_VARIANTS, AlertVariantKey(p)), p.className])
         == ALERT_BASE + Slot(ALERT_VARIANTS, AlertVariantKey(p)) + Part(p.className)
  {
    CnBaseThen2(ALERT_BASE, Lookup(ALERT_VARIANTS, AlertVariantKey(p)), p.className);
    LookupPart(ALERT_VARIANTS, AlertVariantKey(p));
  }

  /** A declared variant and size: base, variant entry, size entry, override, in that order. */
  lemma ButtonDeclared(variant: string, size: string, className: Value)
    requires variant in BUTTON_VARIANTS && size in BUTTON_SIZES
    ensures ButtonClass(ButtonProps(Str(variant), Str(size), className))
         == BUTTON_BASE + " " + BUTTON_VARIANTS[variant] + " " + BUTTON_SIZES[size] + Part(className)
  {
    var p := ButtonProps(Str(variant), Str(size), className);
    ButtonClassShape(p);
    var v, z := BUTTON_VARIANTS[variant], BUTTON_SIZES[size];
    assert Slot(BUTTON_VARIANTS, ButtonVariantKey(p)) == " " + v;
    assert Slot(BUTTON_SIZES, ButtonSizeKey(p)) == " " + z;
    ConcatAssoc(BUTTON_BASE, " ", v);
    ConcatAssoc(BUTTON_BASE + " " + v, " ", z);
  }

  /** Leaving variant and size out means `primary` and `md`. */
  lemma ButtonDefaults(className: Value)
    ensures ButtonClass(ButtonProps(Undefined, Undefined, className))
         == BUTTON_BASE + " " + BUTTON_VARIANTS["primary"] + " " + BUTTON_SIZES["md"] + Part(className)
  {
    var p := ButtonProps(Undefined, Undefined, className);
    ButtonClassShape(p);
    var v, z := BUTTON_VARIANTS["primary"], BUTTON_SIZES["md"];
    assert Slot(BUTTON_VARIANTS, ButtonVariantKey(p)) == " " + v;
    assert Slot(BUTTON_SIZES, ButtonSizeKey(p)) == " " + z;
    ConcatAssoc(BUTTON_BASE, " ", v);
    ConcatAssoc(BUTTON_BASE + " " + v, " ", z);
  }

  /** An undeclared variant is dropped silently; base, size and override remain. */
  lemma ButtonUnknownVariant(p: ButtonProps)
    requires ToString(ButtonVariantKey(p)) !in BUTTON_VARIANTS
    ensures ButtonClass(p) == BUTTON_BASE + Slot(BUTTON_SIZES, ButtonSizeKey(p)) + Part(p.className)
  {
    ButtonClassShape(p);
    assert Slot(BUTTON_VARIANTS, ButtonVariantKey(p)) == "";
    assert BUTTON_BASE + "" == BUTTON_BASE;
  }

  /** An undeclared size is dropped silently; base, variant and override remain. */
  lemma ButtonUnknownSize(p: ButtonProps)
    requires ToString(ButtonSizeKey(p)) !in BUTTON_SIZES
    ensures ButtonClass(p) == BUTTON_BASE + Slot(BUTTON_VARIANTS, ButtonVariantKey(p)) + Part(p.className)
  {
    ButtonClassShape(p);
    var x := BUTTON_BASE + Slot(BUTTON_VARIANTS, ButtonVariantKey(p));
    assert Slot(BUTTON_SIZES, ButtonSizeKey(p)) == "";
    assert x + "" == x;
  }

  /** A truthy override always comes last, after one space. */
  lemma ButtonOverrideLast(p: ButtonProps)
    requires Truthy(p.className)
    ensures var r, o := ButtonClass(p), " " + ToString(p.className);
            |o| <= |r| && r[|r| - |o|..] == o
  {
    ButtonClassShape(p);
  }

  lemma AlertDeclared(variant: string, className: Value)
    requires variant in ALERT_VARIANTS
    ensures AlertClass(AlertProps(Str(variant), className)) == ALERT_BASE + " " + ALERT_VARIANTS[variant] + Part(className)
  {
    var p := AlertProps(Str(variant), className);
    AlertClassShape(p);
    var v := ALERT_VARIANTS[variant];
    assert Slot(ALERT_VARIANTS, AlertVariantKey(p)) == " " + v;
    ConcatAssoc(ALERT_BASE, " ", v);
  }

  /** Leaving the variant out means `info`. */
  lemma AlertDefault(className: Value)
    ensures AlertClass(AlertProps(Undefined, className)) == ALERT_BASE + " " + ALERT_VARIANTS["info"] + Part(className)
  {
    var p := AlertProps(Undefined, className);
    AlertClassShape(p);
    var v := ALERT_VARIANTS["info"];
    assert Slot(ALERT_VARIANTS, AlertVariantKey(p)) == " " + v;
    ConcatAssoc(ALERT_BASE, " ", v);
  }

  /** An undeclared variant gives the base and the override only. */
  lemma AlertUnknownVariant(p: AlertProps)
    requires ToString(AlertVariantKey(p)) !in ALERT_VARIANTS
    ensures AlertClass(p) == ALERT_BASE + Part(p.className)
  {
    AlertClassShape(p);
    assert Slot(ALERT_VARIANTS, AlertVariantKey(p)) == "";
    assert ALERT_BASE + "" == ALERT_BASE;
  }
}
