/**
 * parseNumberInput (services/StrategyEngine.ts): free text to a list of
 * numbers. The text is split at every run of separators (JavaScript's `\s`
 * class, ',' and ';'), each field is trimmed, empty fields are dropped,
 * each remaining field is converted with `Number` and fields that are not
 * numbers are dropped.
 *
 * The conversion is modelled for tokens made only of decimal digits; every
 * other token is dropped.
 */
module NumberInput {
  import opened Wrappers

  /** JavaScript's `\s`: white space and line terminators (also what `trim` strips). */
  predicate IsWhitespace(c: char) {
    var u := c as int;
    || u == 0x09 || u == 0x0A || u == 0x0B || u == 0x0C || u == 0x0D || u == 0x20
    || u == 0xA0 || u == 0x1680 || (0x2000 <= u <= 0x200A)
    || u == 0x2028 || u == 0x2029 || u == 0x202F || u == 0x205F || u == 0x3000 || u == 0xFEFF
  }

  /** The character class `[\s,;\n]`. */
  predicate IsSeparator(c: char) {
    IsWhitespace(c) || c == ',' || c == ';'
  }

  /** A string with no separator in it. */
  predicate IsWord(w: string) {
    forall i :: 0 <= i < |w| ==> !IsSeparator(w[i])
  }

  /**
   * `s.split(/[\s,;\n]+/)`: the fields between maximal runs of separators.
   * A run at the start or at the end yields an empty first or last field,
   * and the empty text yields one empty field.
   */
  function Split(s: string): (fields: seq<string>)
    ensures |fields| >= 1
  {
    if s == [] then [""]
    else if !IsSeparator(s[0]) then
      var rest := Split(s[1..]);
      [[s[0]] + rest[0]] + rest[1..]
    else if |s| > 1 && IsSeparator(s[1]) then Split(s[1..])
    else [""] + Split(s[1..])
  }

  function TrimStart(t: string): string {
    if t != [] && IsWhitespace(t[0]) then TrimStart(t[1..]) else t
  }

  function TrimEnd(t: string): string {
    if t != [] && IsWhitespace(t[|t| - 1]) then TrimEnd(t[..|t| - 1]) else t
  }

  /** `t.trim()` */
  function Trim(t: string): string {
    TrimEnd(TrimStart(t))
  }

  /** `.map(s => s.trim())` */
  function TrimAll(fields: seq<string>): (r: seq<string>)
    ensures |r| == |fields|
  {
    if fields == [] then [] else [Trim(fields[0])] + TrimAll(fields[1..])
  }

  /** `.filter(s => s !== '')` */
  function DropEmpty(fields: seq<string>): (kept: seq<string>)
    ensures |kept| <= |fields|
    ensures forall k :: 0 <= k < |kept| ==> kept[k] != []
  {
    if fields == [] then []
    else (if fields[0] == [] then [] else [fields[0]]) + DropEmpty(fields[1..])
  }

  /** The non-empty trimmed fields of the input, in input order. */
  function Tokens(input: string): seq<string> {
    DropEmpty(TrimAll(Split(input)))
  }

  predicate IsDigit(c: char) {
    '0' <= c <= '9'
  }

  /** A token `Number` reads as a decimal integer: one or more digits and nothing else. */
  predicate IsDecimal(t: string) {
    |t| > 0 && forall i :: 0 <= i < |t| ==> IsDigit(t[i])
  }

  function DigitValue(c: char): nat
    requires IsDigit(c)
  {
    c as int - '0' as int
  }

  /** The value of a string of decimal digits, most significant first. */
  function DecimalValue(t: string): nat
    requires forall i :: 0 <= i < |t| ==> IsDigit(t[i])
  {
    if t == [] then 0 else 10 * DecimalValue(t[..|t| - 1]) + DigitValue(t[|t| - 1])
  }

  /** `Number(t)`, with `None` standing for NaN (and for every token outside the decimal-digit subset). */
  function ToNumber(t: string): Option<int> {
    if IsDecimal(t) then Some(DecimalValue(t)) else None
  }

  /** `.map(Number).filter(n => !isNaN(n))` */
  function KeepNumbers(tokens: seq<string>): (r: seq<int>)
    ensures |r| <= |tokens|
    ensures forall x :: x in r ==> x >= 0
  {
    if tokens == [] then []
    else
      (match ToNumber(tokens[0]) case Some(n) => [n] case None => []) + KeepNumbers(tokens[1..])
  }

  /** parseNumberInput */
  function ParseNumberInput(input: string): (ns: seq<int>)
    ensures |ns| <= |Tokens(input)|
  {
    KeepNumbers(Tokens(input))
  }

  // ----- properties of the tokenizer -----

  lemma {:induction false} TrimStartWord(t: string)
    requires IsWord(t)
    ensures TrimStart(t) == t
  {
  }

  lemma {:induction false} TrimEndWord(t: string)
    requires IsWord(t)
    ensures TrimEnd(t) == t
  {
  }

  /** No field contains a separator. */
  lemma {:induction false} FieldsAreWords(s: string)
    ensures forall f :: f in Split(s) ==> IsWord(f)
  {
    if s != [] {
      FieldsAreWords(s[1..]);
      var rest := Split(s[1..]);
      if !IsSeparator(s[0]) {
        assert rest[0] in rest;
        assert IsWord([s[0]] + rest[0]);
        assert forall f :: f in rest[1..] ==> f in rest;
      }
    }
  }

  /** Trimming a split field changes nothing: the split already removed all white space. */
  lemma {:induction false} TrimAllWords(fields: seq<string>)
    requires forall f :: f in fields ==> IsWord(f)
    ensures TrimAll(fields) == fields
  {
    if fields != [] {
      TrimStartWord(fields[0]);
      TrimEndWord(fields[0]);
      TrimAllWords(fields[1..]);
    }
  }

  /** The tokens are exactly the non-empty split fields. */
  lemma TokensAreFields(input: string)
    ensures Tokens(input) == DropEmpty(Split(input))
  {
    FieldsAreWords(input);
    TrimAllWords(Split(input));
  }

  /** Dropping empty fields keeps the other fields and nothing else. */
  lemma {:induction false} DropEmptyKeeps(fields: seq<string>)
    ensures forall t :: t in DropEmpty(fields) <==> t != [] && t in fields
  {
    if fields != [] {
      DropEmptyKeeps(fields[1..]);
      assert fields == [fields[0]] + fields[1..];
    }
  }

  /** No token is empty and no token contains a separator. */
  lemma TokensAreWords(input: string)
    ensures forall t :: t in Tokens(input) ==> t != [] && IsWord(t)
  {
    TokensAreFields(input);
    FieldsAreWords(input);
    DropEmptyKeeps(Split(input));
  }

  lemma DropEmptyCons(f: string, fields: seq<string>)
    ensures DropEmpty([f] + fields) == (if f == [] then [] else [f]) + DropEmpty(fields)
  {
    assert ([f] + fields)[1..] == fields;
  }

  /** A text that starts with a separator has an empty first field. */
  lemma {:induction false} LeadingSeparatorField(s: string)
    requires s != [] && IsSeparator(s[0])
    ensures Split(s)[0] == []
  {
    if |s| > 1 && IsSeparator(s[1]) {
      LeadingSeparatorField(s[1..]);
    }
  }

  /** A separator at the front adds no token. */
  lemma LeadingSeparatorVanishes(c: char, b: string)
    requires IsSeparator(c)
    ensures DropEmpty(Split([c] + b)) == DropEmpty(Split(b))
  {
    assert ([c] + b)[1..] == b;
    if !(b != [] && IsSeparator(b[0])) {
      DropEmptyCons([], Split(b));
    }
  }

  /** Text before a separator does not see what comes after it in its first field. */
  lemma {:induction false} FirstFieldStopsAtSeparator(a: string, c: char, b: string)
    requires IsSeparator(c)
    ensures Split(a + [c] + b)[0] == Split(a)[0]
  {
    if a == [] {
      assert a + [c] + b == [c] + b;
      LeadingSeparatorField([c] + b);
    } else if IsSeparator(a[0]) {
      LeadingSeparatorField(a + [c] + b);
      LeadingSeparatorField(a);
    } else {
      assert (a + [c] + b)[1..] == a[1..] + [c] + b;
      FirstFieldStopsAtSeparator(a[1..], c, b);
    }
  }

  /**
   * Splitting only happens at separators: the tokens of `a`, a separator,
   * then `b` are the tokens of `a` followed by the tokens of `b`.
   */
  lemma {:induction false} TokensSplitAtSeparator(a: string, c: char, b: string)
    requires IsSeparator(c)
    ensures Tokens(a + [c] + b) == Tokens(a) + Tokens(b)
  {
    TokensAreFields(a + [c] + b);
    TokensAreFields(a);
    TokensAreFields(b);
    FieldsSplitAtSeparator(a, c, b);
  }

  lemma {:induction false} FieldsSplitAtSeparator(a: string, c: char, b: string)
    requires IsSeparator(c)
    ensures DropEmpty(Split(a + [c] + b)) == DropEmpty(Split(a)) + DropEmpty(Split(b))
  {
    if a == [] {
      assert a + [c] + b == [c] + b;
      LeadingSeparatorVanishes(c, b);
      FieldsOfEmpty();
    } else {
      var a' := a[1..];
      ghost var whole := a + [c] + b;
      assert whole == [a[0]] + (a' + [c] + b);
      assert a == [a[0]] + a';
      FieldsSplitAtSeparator(a', c, b);
      if IsSeparator(a[0]) {
        SeparatorStep(a[0], a', c, b);
      } else {
        WordCharStep(a[0], a', c, b);
      }
    }
  }

  lemma FieldsOfEmpty()
    ensures DropEmpty(Split([])) == []
  {
    assert DropEmpty([""]) == [] + DropEmpty([]);
  }

  lemma SeparatorStep(x: char, a': string, c: char, b: string)
    requires IsSeparator(x) && IsSeparator(c)
    requires DropEmpty(Split(a' + [c] + b)) == DropEmpty(Split(a')) + DropEmpty(Split(b))
    ensures DropEmpty(Split([x] + (a' + [c] + b))) == DropEmpty(Split([x] + a')) + DropEmpty(Split(b))
  {
    LeadingSeparatorVanishes(x, a' + [c] + b);
    LeadingSeparatorVanishes(x, a');
  }

  lemma WordCharStep(x: char, a': string, c: char, b: string)
    requires !IsSeparator(x) && IsSeparator(c)
    requires DropEmpty(Split(a' + [c] + b)) == DropEmpty(Split(a')) + DropEmpty(Split(b))
    ensures DropEmpty(Split([x] + (a' + [c] + b))) == DropEmpty(Split([x] + a')) + DropEmpty(Split(b))
  {
    var t := a' + [c] + b;
    FirstFieldStopsAtSeparator(a', c, b);
    WordCharExtendsFirstField(x, t);
    WordCharExtendsFirstField(x, a');
    FieldsUnfold(t);
    FieldsUnfold(a');
    var st, sa := Split(t), Split(a');
    Reassemble([x] + sa[0], if sa[0] == [] then [] else [sa[0]],
      DropEmpty(st[1..]), DropEmpty(sa[1..]), DropEmpty(Split(b)),
      DropEmpty(Split([x] + t)), DropEmpty(Split([x] + a')), DropEmpty(st), DropEmpty(sa));
  }

  /** The sequence algebra behind WordCharStep, with every field list named. */
  lemma Reassemble(w: string, head: seq<string>, ds: seq<string>, da: seq<string>, db: seq<string>,
                   lhs: seq<string>, ra: seq<string>, dt: seq<string>, dta: seq<string>)
    requires dt == dta + db
    requires dt == head + ds
    requires dta == head + da
    requires lhs == [w] + ds
    requires ra == [w] + da
    ensures lhs == ra + db
  {
    assert head + ds == head + (da + db);
    assert ds == (head + ds)[|head|..] == (head + (da + db))[|head|..] == da + db;
  }

  /** The non-empty fields of a text are its first field, if non-empty, then the rest. */
  lemma FieldsUnfold(s: string)
    ensures DropEmpty(Split(s)) == (if Split(s)[0] == [] then [] else [Split(s)[0]]) + DropEmpty(Split(s)[1..])
  {
    var f := Split(s);
    assert f == [f[0]] + f[1..];
    DropEmptyCons(f[0], f[1..]);
  }

  /** A character that is not a separator joins the first field of what follows it. */
  lemma WordCharExtendsFirstField(x: char, t: string)
    requires !IsSeparator(x)
    ensures DropEmpty(Split([x] + t)) == [[x] + Split(t)[0]] + DropEmpty(Split(t)[1..])
  {
    assert ([x] + t)[1..] == t;
    var f := Split(t);
    DropEmptyCons([x] + f[0], f[1..]);
  }

  /** A separator-free string is its own single field. */
  lemma {:induction false} SplitWord(w: string)
    requires IsWord(w)
    ensures Split(w) == [w]
  {
    if w != [] {
      assert IsWord(w[1..]);
      SplitWord(w[1..]);
      assert [w[0]] + w[1..] == w;
    }
  }

  /** A non-empty separator-free string is exactly one token. */
  lemma TokensOfWord(w: string)
    requires w != [] && IsWord(w)
    ensures Tokens(w) == [w]
  {
    TokensAreFields(w);
    SplitWord(w);
    DropEmptyCons(w, []);
  }

  /** A string of separators only has no token and does not change the tokens of what follows. */
  lemma {:induction false} SeparatorsVanish(sep: string, b: string)
    requires forall i :: 0 <= i < |sep| ==> IsSeparator(sep[i])
    ensures Tokens(sep + b) == Tokens(b)
  {
    if sep != [] {
      assert sep + b == [] + [sep[0]] + (sep[1..] + b);
      TokensSplitAtSeparator([], sep[0], sep[1..] + b);
      TokensAreFields([]);
      assert Split([]) == [""];
      assert DropEmpty([""]) == [] + DropEmpty([]);
      assert Tokens([]) == [];
      assert forall i :: 0 <= i < |sep[1..]| ==> IsSeparator(sep[1..][i]);
      SeparatorsVanish(sep[1..], b);
      assert Tokens(sep + b) == Tokens(sep[1..] + b);
    } else {
      assert sep + b == b;
    }
  }

  /** `ts.join(sep)` */
  function Join(ts: seq<string>, sep: string): string {
    if |ts| == 0 then []
    else if |ts| == 1 then ts[0]
    else ts[0] + sep + Join(ts[1..], sep)
  }

  /**
   * Round trip: joining non-empty separator-free tokens with any non-empty
   * run of separators and tokenizing gives the tokens back, in order.
   */
  lemma {:induction false} TokensOfJoin(ts: seq<string>, sep: string)
    requires sep != [] && forall i :: 0 <= i < |sep| ==> IsSeparator(sep[i])
    requires forall t :: t in ts ==> t != [] && IsWord(t)
    ensures Tokens(Join(ts, sep)) == ts
  {
    if |ts| == 0 {
      TokensAreFields([]);
    } else if |ts| == 1 {
      assert ts[0] in ts;
      TokensOfWord(ts[0]);
    } else {
      var rest := Join(ts[1..], sep);
      assert ts[0] + sep + rest == ts[0] + [sep[0]] + (sep[1..] + rest);
      TokensSplitAtSeparator(ts[0], sep[0], sep[1..] + rest);
      SeparatorsVanish(sep[1..], rest);
      assert ts[0] in ts;
      TokensOfWord(ts[0]);
      assert forall t :: t in ts[1..] ==> t in ts;
      TokensOfJoin(ts[1..], sep);
    }
  }

  /** All characters of the strings, in order. */
  function Concat(ts: seq<string>): string {
    if ts == [] then [] else ts[0] + Concat(ts[1..])
  }

  /** The input with every separator removed. */
  function WithoutSeparators(s: string): string {
    if s == [] then []
    else (if IsSeparator(s[0]) then [] else [s[0]]) + WithoutSeparators(s[1..])
  }

  lemma {:induction false} ConcatSplit(s: string)
    ensures Concat(Split(s)) == WithoutSeparators(s)
  {
    if s != [] {
      ConcatSplit(s[1..]);
      var rest := Split(s[1..]);
      assert rest == [rest[0]] + rest[1..];
      assert Concat(rest) == rest[0] + Concat(rest[1..]);
      if !IsSeparator(s[0]) {
        var r := Split(s);
        assert r[1..] == rest[1..];
        assert Concat(r) == [s[0]] + rest[0] + Concat(rest[1..]);
      } else if !(|s| > 1 && IsSeparator(s[1])) {
        var r := Split(s);
        assert r[1..] == rest;
      }
    }
  }

  lemma {:induction false} ConcatDropEmpty(fields: seq<string>)
    ensures Concat(DropEmpty(fields)) == Concat(fields)
  {
    if fields != [] {
      ConcatDropEmpty(fields[1..]);
      var r := DropEmpty(fields);
      if fields[0] != [] {
        assert r == [fields[0]] + DropEmpty(fields[1..]);
        assert r[0] == fields[0] && r[1..] == DropEmpty(fields[1..]);
      } else {
        assert r == DropEmpty(fields[1..]);
        assert Concat(fields) == fields[0] + Concat(fields[1..]);
      }
    }
  }

  /**
   * No character other than a separator is lost, added or moved: the
   * tokens, put back together, are the input without its separators.
   */
  lemma TokensKeepEveryCharacter(input: string)
    ensures Concat(Tokens(input)) == WithoutSeparators(input)
  {
    TokensAreFields(input);
    ConcatDropEmpty(Split(input));
    ConcatSplit(input);
  }

  // ----- the history text the application writes, read back -----

  function Digit(d: nat): (c: char)
    requires d < 10
    ensures IsDigit(c) && DigitValue(c) == d
  {
    (48 + d) as char
  }

  /** `n.toString()` for a non-negative integer. */
  function ToDecimal(n: nat): (t: string)
    ensures IsDecimal(t)
  {
    if n < 10 then [Digit(n)] else ToDecimal(n / 10) + [Digit(n % 10)]
  }

  lemma {:induction false} DecimalRoundTrip(n: nat)
    ensures DecimalValue(ToDecimal(n)) == n
  {
    if n >= 10 {
      DecimalRoundTrip(n / 10);
      var t := ToDecimal(n);
      assert t[..|t| - 1] == ToDecimal(n / 10);
    }
  }

  function ToDecimalAll(ns: seq<nat>): (ts: seq<string>)
    ensures |ts| == |ns|
  {
    if ns == [] then [] else [ToDecimal(ns[0])] + ToDecimalAll(ns[1..])
  }

  /**
   * Reading back a history text written as the spins separated by ", "
   * (the format the application appends to) gives the spins back.
   */
  lemma ParseOfRenderedSpins(ns: seq<nat>)
    ensures ParseNumberInput(Join(ToDecimalAll(ns), ", ")) == ns
  {
    var ts := ToDecimalAll(ns);
    DecimalWords(ns);
    TokensOfJoin(ts, ", ");
    KeepDecimals(ns);
  }

  lemma {:induction false} DecimalWords(ns: seq<nat>)
    ensures forall t :: t in ToDecimalAll(ns) ==> t != [] && IsWord(t)
  {
    if ns != [] {
      DecimalWords(ns[1..]);
    }
  }

  lemma {:induction false} KeepDecimals(ns: seq<nat>)
    ensures KeepNumbers(ToDecimalAll(ns)) == ns
  {
    if ns != [] {
      var ts := ToDecimalAll(ns);
      assert ts[0] == ToDecimal(ns[0]) && ts[1..] == ToDecimalAll(ns[1..]);
      DecimalRoundTrip(ns[0]);
      KeepDecimals(ns[1..]);
    }
  }

  // ----- properties of the conversion -----

  /** Conversion works token by token: the numbers of a + b are those of a, then those of b. */
  lemma {:induction false} KeepNumbersConcat(a: seq<string>, b: seq<string>)
    ensures KeepNumbers(a + b) == KeepNumbers(a) + KeepNumbers(b)
  {
    if a != [] {
      assert (a + b)[0] == a[0] && (a + b)[1..] == a[1..] + b;
      KeepNumbersConcat(a[1..], b);
    } else {
      assert a + b == b;
    }
  }

  /** A single token gives its value when it is a number and nothing when it is not. */
  lemma KeepNumbersOfToken(t: string)
    ensures KeepNumbers([t]) == if IsDecimal(t) then [DecimalValue(t)] else []
  {
    assert [t][1..] == [];
  }

  /** A token that is not a number is dropped and its neighbours are kept: "5", "x", "7" give 5, 7. */
  lemma ExampleSkipsNonNumber()
    ensures KeepNumbers(["5", "x", "7"]) == [5, 7]
  {
    KeepNumbersConcat(["5"], ["x", "7"]);
    KeepNumbersConcat(["x"], ["7"]);
    KeepNumbersOfToken("5");
    KeepNumbersOfToken("x");
    KeepNumbersOfToken("7");
    assert ["5"] + (["x"] + ["7"]) == ["5", "x", "7"];
  }
}
