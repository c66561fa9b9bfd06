/**
 The map rewriters of pkg/sinks/bigquery.go: nil removal and key sanitising. Go ranges over a map in any
 order, so where two keys are rewritten to the same one the result may depend on that order.
 */
module BigQueryRows {
  import opened Wrappers
  import opened IterationOrder

  /** A decoded JSON value. */
  datatype Json = Null | Bool(b: bool) | Number(n: real) | Text(s: string) | Arr(items: seq<Json>)
                | Obj(fields: map<string, Json>)

  /** The character classes of package unicode. */
  datatype Unicode = Unicode(isLetter: char -> bool, isDigit: char -> bool)

  // ---------- Dropping nils ----------

  /** Specification: nils are left out at every depth reachable through maps. */
  function DropNils(v: Json): Json {
    match v
    case Obj(m) => Obj(map k | k in m && m[k] != Null :: DropNils(m[k]))
    case _ => v
  }

  method BigQueryDropNils(x: map<string, Json>) returns (y: map<string, Json>)
    ensures Obj(y) == DropNils(Obj(x))
    decreases Obj(x)
  {
    y := map[];
    var rest := x.Keys;
    while rest != {}
      invariant rest <= x.Keys
      invariant y == map k | k in x && k !in rest && x[k] != Null :: DropNils(x[k])
    {
      var key :| key in rest;
      var value := x[key];
      if value != Null {
        if value.Obj? {
          var inner := BigQueryDropNils(value.fields);
          y := y[key := Obj(inner)];
        } else {
          y := y[key := value];
        }
      }
      rest := rest - {key};
    }
  }

  // ---------- Sanitising one key ----------

  /** key[0] as Go sees it: the first byte of the UTF-8 encoding, taken for a rune. */
  function FirstByte(c: char): char {
    var n := c as int;
    (if n < 0x80 then n
     else if n < 0x800 then 0xC0 + n / 0x40
     else if n < 0x1_0000 then 0xE0 + n / 0x1000
     else 0xF0 + n / 0x4_0000) as char
  }

  function FixChar(u: Unicode, c: char): char { if u.isLetter(c) || u.isDigit(c) then c else '_' }

  function FixChars(u: Unicode, key: string): string {
    seq(|key|, i requires 0 <= i < |key| => FixChar(u, key[i]))
  }

  function SanitizedKey(u: Unicode, key: string): string
    requires key != ""
  {
    (if u.isLetter(FirstByte(key[0])) then "" else "_") + FixChars(u, key)
  }

  method BigQuerySanitizeKey(u: Unicode, key: string) returns (fixedKey: string)
    requires key != ""     // key[0] of an empty key panics
    ensures fixedKey == SanitizedKey(u, key)
  {
    fixedKey := "";
    if !u.isLetter(FirstByte(key[0])) { fixedKey := "_"; }
    ghost var prefix := fixedKey;
    for i := 0 to |key|
      invariant fixedKey == prefix + FixChars(u, key)[..i]
    {
      if u.isLetter(key[i]) || u.isDigit(key[i]) {
        fixedKey := fixedKey + [key[i]];
      } else {
        fixedKey := fixedKey + "_";
      }
    }
  }

  /** The first byte of the UTF-8 encoding: the range it lies in tells how many bytes follow, and it holds the
      leading bits of the character. */
  lemma FirstByteUtf8(c: char)
    ensures var b, n := FirstByte(c) as int, c as int;
            || (b <= 0x7F && n == b)
            || (0xC2 <= b <= 0xDF && LeadsWith(n, b - 0xC0, 0x40))
            || (0xE0 <= b <= 0xEF && LeadsWith(n, b - 0xE0, 0x1000) && n >= 0x800)
            || (0xF0 <= b <= 0xF4 && LeadsWith(n, b - 0xF0, 0x4_0000) && n >= 0x1_0000)
  {
  }

  predicate LeadsWith(n: int, lead: int, unit: int) { lead * unit <= n < (lead + 1) * unit }

  /** Letters and digits stay, every other character becomes an underscore, and one more is put in front if
      the first byte is not a letter. */
  lemma SanitizedKeyAt(u: Unicode, key: string)
    requires key != ""
    ensures var s, front := SanitizedKey(u, key), if u.isLetter(FirstByte(key[0])) then 0 else 1;
            && |s| == |key| + front && (front == 1 ==> s[0] == '_')
            && forall i :: 0 <= i < |key| ==>
                 s[front + i] == if u.isLetter(key[i]) || u.isDigit(key[i]) then key[i] else '_'
  {
    assert "" + FixChars(u, key) == FixChars(u, key);
  }

  /** A key that is legal as it is. */
  predicate LegalKey(u: Unicode, key: string) {
    key != "" && u.isLetter(FirstByte(key[0])) && forall i :: 0 <= i < |key| ==> u.isLetter(key[i]) || u.isDigit(key[i])
  }

  lemma LegalKeyKept(u: Unicode, key: string)
    requires LegalKey(u, key)
    ensures SanitizedKey(u, key) == key
  {
    SanitizedKeyAt(u, key);
  }

  predicate Identifier(u: Unicode, s: string) {
    && s != ""
    && (u.isLetter(s[0]) || s[0] == '_')
    && forall i :: 0 <= i < |s| ==> u.isLetter(s[i]) || u.isDigit(s[i]) || s[i] == '_'
  }

  /** A digit whose encoding starts with a byte that by itself would be a letter. */
  predicate MisleadingDigit(u: Unicode, c: char) {
    u.isDigit(c) && !u.isLetter(c) && c != '_' && u.isLetter(FirstByte(c))
  }

  /** A sanitised key is an identifier unless the key starts with a misleading digit, because the test for
      the leading underscore looks at a byte. */
  lemma SanitizedIdentifierIff(u: Unicode, key: string)
    requires key != ""
    ensures Identifier(u, SanitizedKey(u, key)) <==> !MisleadingDigit(u, key[0])
  {
    var fixed := FixChars(u, key);
    assert fixed[0] == FixChar(u, key[0]);
    if !u.isLetter(FirstByte(key[0])) {
      var s := "_" + fixed;
      assert s[0] == '_';
      forall i | 0 <= i < |s| ensures u.isLetter(s[i]) || u.isDigit(s[i]) || s[i] == '_' {
        if i > 0 { assert s[i] == fixed[i - 1]; }
      }
    } else {
      assert "" + fixed == fixed;
    }
  }

  /** For a key starting with an ASCII character the problem cannot arise. */
  lemma AsciiKeysSafe(u: Unicode, key: string)
    requires key != "" && key[0] as int < 0x80
    ensures Identifier(u, SanitizedKey(u, key))
  {
    SanitizedIdentifierIff(u, key);
  }

  /** U+0663 ARABIC-INDIC DIGIT THREE is encoded as 0xD9 0xA3, and U+00D9 is a letter. */
  lemma ArabicDigitKey(u: Unicode)
    requires u.isDigit('\U{0663}') && !u.isLetter('\U{0663}') && u.isLetter('\U{00D9}')
    ensures SanitizedKey(u, "\U{0663}") == "\U{0663}" && !Identifier(u, SanitizedKey(u, "\U{0663}"))
  {
    assert FirstByte('\U{0663}') == '\U{00D9}';
    SanitizedIdentifierIff(u, "\U{0663}");
  }

  // ---------- Sanitising all keys ----------

  function Image(u: Unicode, keys: set<string>): set<string> {
    set k | k in keys && k != "" :: SanitizedKey(u, k)
  }

  /** The new name of a key; an empty one never gets that far. */
  function Sanitizer(u: Unicode): string -> string { (key: string) => if key == "" then "" else SanitizedKey(u, key) }

  /** What sanitising returns for some iteration order of each map. It does not return if it meets an empty
      key. */
  ghost predicate Produces(u: Unicode, v: Json, w: Json) {
    match v
    case Obj(m) =>
      && w.Obj?
      && (forall k :: k in m ==> k != "")
      && exists inner: map<string, Json>, order ::
           && inner.Keys == m.Keys && (forall k :: k in m ==> Produces(u, m[k], inner[k]))
           && Enumerates(m.Keys, order) && InOrder(Sanitizer(u), inner, order) == w.fields
    case _ => w == v
  }

  /** The same without orders: every new key stems from an old one, whose value it carries, sanitised. */
  ghost predicate Sanitizes(u: Unicode, v: Json, w: Json) {
    match v
    case Obj(m) =>
      && w.Obj?
      && (forall k :: k in m ==> k != "")
      && w.fields.Keys == Image(u, m.Keys)
      && forall k' :: k' in w.fields ==>
           exists k :: k in m && SanitizedKey(u, k) == k' && Sanitizes(u, m[k], w.fields[k'])
    case _ => w == v
  }

  /** No map reachable through maps has an empty key. */
  ghost predicate NonEmptyKeys(v: Json) {
    v.Obj? ==> forall k :: k in v.fields ==> k != "" && NonEmptyKeys(v.fields[k])
  }

  method BigQuerySanitizeKeys(u: Unicode, x: map<string, Json>) returns (y: map<string, Json>)
    requires NonEmptyKeys(Obj(x))
    ensures Sanitizes(u, Obj(x), Obj(y))
    decreases Obj(x)
  {
    y := map[];
    var rest := x.Keys;
    while rest != {}
      invariant rest <= x.Keys
      invariant y.Keys == Image(u, x.Keys - rest)
      invariant forall k' :: k' in y ==>
                  exists k :: k in x && SanitizedKey(u, k) == k' && Sanitizes(u, x[k], y[k'])
    {
      var key :| key in rest;
      var value := x[key];
      var fixed := BigQuerySanitizeKey(u, key);
      assert x.Keys - (rest - {key}) == (x.Keys - rest) + {key};
      if value.Obj? {
        var inner := BigQuerySanitizeKeys(u, value.fields);
        y := y[fixed := Obj(inner)];
      } else {
        y := y[fixed := value];
      }
      rest := rest - {key};
    }
    assert x.Keys - {} == x.Keys;
  }

  // ---------- Whatever the iteration order ----------

  ghost predicate NoNils(v: Json) {
    v.Obj? ==> forall k :: k in v.fields ==> v.fields[k] != Null && NoNils(v.fields[k])
  }

  lemma {:induction false} DropNilsLeavesNone(v: Json)
    ensures NoNils(DropNils(v)) && (DropNils(v) == Null <==> v == Null)
  {
    if v.Obj? {
      forall k | k in v.fields
        ensures NoNils(DropNils(v.fields[k])) && (DropNils(v.fields[k]) == Null <==> v.fields[k] == Null)
      {
        DropNilsLeavesNone(v.fields[k]);
      }
    }
  }

  /** No key, at any depth, is empty or starts with a misleading digit. */
  ghost predicate SafeKeys(u: Unicode, v: Json) {
    v.Obj? ==> forall k :: k in v.fields ==> k != "" && !MisleadingDigit(u, k[0]) && SafeKeys(u, v.fields[k])
  }

  ghost predicate IdentifierKeys(u: Unicode, w: Json) {
    w.Obj? ==> forall k :: k in w.fields ==> Identifier(u, k) && IdentifierKeys(u, w.fields[k])
  }

  lemma {:induction false} SanitizeKeepsNoNils(u: Unicode, v: Json, w: Json)
    requires NoNils(v) && Sanitizes(u, v, w)
    ensures NoNils(w) && (w == Null <==> v == Null)
    decreases v
  {
    if v.Obj? {
      forall k' | k' in w.fields ensures w.fields[k'] != Null && NoNils(w.fields[k']) {
        var k :| k in v.fields && SanitizedKey(u, k) == k' && Sanitizes(u, v.fields[k], w.fields[k']);
        SanitizeKeepsNoNils(u, v.fields[k], w.fields[k']);
      }
    }
  }

  lemma {:induction false} SanitizeMakesIdentifiers(u: Unicode, v: Json, w: Json)
    requires SafeKeys(u, v) && Sanitizes(u, v, w)
    ensures IdentifierKeys(u, w)
    decreases v
  {
    if v.Obj? {
      forall k' | k' in w.fields ensures Identifier(u, k') && IdentifierKeys(u, w.fields[k']) {
        var k :| k in v.fields && SanitizedKey(u, k) == k' && Sanitizes(u, v.fields[k], w.fields[k']);
        SanitizedIdentifierIff(u, k);
        SanitizeMakesIdentifiers(u, v.fields[k], w.fields[k']);
      }
    }
  }

  ghost function Origin(u: Unicode, keys: set<string>, k': string): (k: string)
    requires k' in Image(u, keys)
    ensures k in keys && k != "" && SanitizedKey(u, k) == k'
  {
    var k :| k in keys && k != "" && SanitizedKey(u, k) == k';
    k
  }

  /** One possible result. */
  ghost function Sanitized(u: Unicode, v: Json): Json {
    match v
    case Obj(m) => Obj(map k' | k' in Image(u, m.Keys) :: Sanitized(u, m[Origin(u, m.Keys, k')]))
    case _ => v
  }

  lemma {:induction false} SanitizedPossible(u: Unicode, v: Json)
    requires NonEmptyKeys(v)
    ensures Sanitizes(u, v, Sanitized(u, v))
  {
    if v.Obj? {
      var m, w := v.fields, Sanitized(u, v).fields;
      SanitizedKeys(u, v);
      forall k' | k' in w ensures exists k :: k in m && SanitizedKey(u, k) == k' && Sanitizes(u, m[k], w[k']) {
        var k := Origin(u, m.Keys, k');
        SanitizedPossible(u, m[k]);
        assert w[k'] == Sanitized(u, m[k]);
      }
    }
  }

  lemma ProducesSome(u: Unicode, m: map<string, Json>, inner: map<string, Json>, w: map<string, Json>)
    requires inner.Keys == m.Keys && Carries(Sanitizer(u), inner, w)
    requires forall k :: k in m ==> k != "" && Produces(u, m[k], inner[k])
    ensures Produces(u, Obj(m), Obj(w))
  {
    var order := ChoiceMade(Sanitizer(u), inner, w);
  }

  lemma ProducesFrom(u: Unicode, m: map<string, Json>, w: map<string, Json>) returns (inner: map<string, Json>)
    requires Produces(u, Obj(m), Obj(w))
    ensures inner.Keys == m.Keys && Carries(Sanitizer(u), inner, w)
    ensures forall k :: k in m ==> k != "" && Produces(u, m[k], inner[k])
  {
    var i: map<string, Json>, order :|
      && i.Keys == m.Keys && (forall k :: k in m ==> Produces(u, m[k], i[k]))
      && Enumerates(m.Keys, order) && InOrder(Sanitizer(u), i, order) == Obj(w).fields;
    inner := i;
    OutcomesIff(Sanitizer(u), inner, w);
  }

  /** The sanitised values of all fields, among them the ones that `w` carries. */
  ghost function InnerFor(u: Unicode, m: map<string, Json>, w: map<string, Json>): (inner: map<string, Json>)
    requires Sanitizes(u, Obj(m), Obj(w))
    ensures inner.Keys == m.Keys
  {
    map k | k in m :: if Sanitizes(u, m[k], w[SanitizedKey(u, k)]) then w[SanitizedKey(u, k)] else Sanitized(u, m[k])
  }

  /** What some iteration orders produce is exactly what the relation allows. */
  lemma ProducesIff(u: Unicode, v: Json, w: Json)
    ensures Produces(u, v, w) <==> NonEmptyKeys(v) && Sanitizes(u, v, w)
  {
    if Produces(u, v, w) { ProducedSanitizes(u, v, w); }
    if NonEmptyKeys(v) && Sanitizes(u, v, w) { SanitizesProduced(u, v, w); }
  }

  lemma {:induction false} ProducedSanitizes(u: Unicode, v: Json, w: Json)
    requires Produces(u, v, w)
    ensures NonEmptyKeys(v) && Sanitizes(u, v, w)
    decreases v
  {
    if v.Obj? {
      var inner := ProducesFrom(u, v.fields, w.fields);
      forall k | k in v.fields ensures NonEmptyKeys(v.fields[k]) && Sanitizes(u, v.fields[k], inner[k]) {
        ProducedSanitizes(u, v.fields[k], inner[k]);
      }
      CarriedSanitizes(u, v.fields, inner, w.fields);
    }
  }

  lemma {:induction false} SanitizesProduced(u: Unicode, v: Json, w: Json)
    requires NonEmptyKeys(v) && Sanitizes(u, v, w)
    ensures Produces(u, v, w)
    decreases v
  {
    if v.Obj? {
      var inner := InnerFor(u, v.fields, w.fields);
      forall k | k in v.fields ensures k != "" && Produces(u, v.fields[k], inner[k]) {
        SanitizedPossible(u, v.fields[k]);
        SanitizesProduced(u, v.fields[k], inner[k]);
      }
      InnerCarried(u, v.fields, w.fields);
      ProducesSome(u, v.fields, inner, w.fields);
    }
  }

  lemma CarriedSanitizes(u: Unicode, m: map<string, Json>, inner: map<string, Json>, w: map<string, Json>)
    requires inner.Keys == m.Keys && Carries(Sanitizer(u), inner, w)
    requires forall k :: k in m ==> k != "" && Sanitizes(u, m[k], inner[k])
    ensures Sanitizes(u, Obj(m), Obj(w))
  {
    forall k' | k' in w ensures exists k :: k in m && SanitizedKey(u, k) == k' && Sanitizes(u, m[k], w[k']) {
      var k := StemOf(u, m, inner, w, k');
    }
    CarriedKeys(u, m, inner, w);
  }

  lemma StemOf(u: Unicode, m: map<string, Json>, inner: map<string, Json>, w: map<string, Json>, k': string)
    returns (k: string)
    requires inner.Keys == m.Keys && Carries(Sanitizer(u), inner, w) && k' in w
    requires forall k :: k in m ==> k != "" && Sanitizes(u, m[k], inner[k])
    ensures k in m && k != "" && SanitizedKey(u, k) == k' && Sanitizes(u, m[k], w[k'])
  {
    k :| k in inner && Sanitizer(u)(k) == k' && inner[k] == w[k'];
  }

  lemma CarriedKeys(u: Unicode, m: map<string, Json>, inner: map<string, Json>, w: map<string, Json>)
    requires inner.Keys == m.Keys && Carries(Sanitizer(u), inner, w)
    requires forall k :: k in m ==> k != ""
    ensures w.Keys == Image(u, m.Keys)
  {
    forall k' | k' in w ensures k' in Image(u, m.Keys) {
      var k :| k in inner && Sanitizer(u)(k) == k' && inner[k] == w[k'];
      assert SanitizedKey(u, k) == k';
    }
    forall k | k in m ensures SanitizedKey(u, k) in w { assert Sanitizer(u)(k) == SanitizedKey(u, k); }
  }

  lemma InnerCarried(u: Unicode, m: map<string, Json>, w: map<string, Json>)
    requires Sanitizes(u, Obj(m), Obj(w))
    ensures Carries(Sanitizer(u), InnerFor(u, m, w), w)
  {
    var inner := InnerFor(u, m, w);
    forall k | k in inner ensures Sanitizer(u)(k) in w { assert SanitizedKey(u, k) in Image(u, m.Keys); }
    forall k' | k' in w ensures exists k :: k in inner && Sanitizer(u)(k) == k' && inner[k] == w[k'] {
      assert k' in Obj(w).fields;
      var k :| k in m && SanitizedKey(u, k) == k' && Sanitizes(u, m[k], w[k']);
      assert Sanitizer(u)(k) == k' && inner[k] == w[k'];
    }
  }

  /** If some key is unsafe, some iteration order brings it into the result. */
  lemma {:induction false} UnsafeShows(u: Unicode, v: Json) returns (w: Json)
    requires NonEmptyKeys(v) && !SafeKeys(u, v)
    ensures Sanitizes(u, v, w) && !IdentifierKeys(u, w)
  {
    SanitizedPossible(u, v);
    w := Sanitized(u, v);
    var k :| k in v.fields && (MisleadingDigit(u, k[0]) || !SafeKeys(u, v.fields[k]));
    var fixed := SanitizedKey(u, k);
    assert fixed in w.fields;
    if MisleadingDigit(u, k[0]) {
      SanitizedIdentifierIff(u, k);
    } else {
      var inner := UnsafeShows(u, v.fields[k]);
      w := Obj(w.fields[fixed := inner]);
      assert w.fields[fixed] == inner;
    }
  }

  /** A row written for BigQuery has no nil reachable through maps, and only identifiers for keys at every
      depth, in whatever order the maps were ranged over and whether or not keys collided, if and only if
      no remaining key starts with a misleading digit. */
  lemma CleanRowIff(u: Unicode, v: Json)
    requires NonEmptyKeys(DropNils(v))
    ensures (forall w :: Produces(u, DropNils(v), w) ==> NoNils(w) && IdentifierKeys(u, w))
            <==> SafeKeys(u, DropNils(v))
  {
    DropNilsLeavesNone(v);
    if SafeKeys(u, DropNils(v)) {
      forall w | Produces(u, DropNils(v), w) ensures NoNils(w) && IdentifierKeys(u, w) {
        ProducesIff(u, DropNils(v), w);
        SanitizeKeepsNoNils(u, DropNils(v), w);
        SanitizeMakesIdentifiers(u, DropNils(v), w);
      }
    } else {
      var w := UnsafeShows(u, DropNils(v));
      ProducesIff(u, DropNils(v), w);
    }
  }

  ghost predicate LegalKeys(u: Unicode, v: Json) {
    v.Obj? ==> forall k :: k in v.fields ==> LegalKey(u, k) && LegalKeys(u, v.fields[k])
  }

  /** Sanitising changes nothing in a row whose keys are all legal. */
  lemma LegalRowKept(u: Unicode, v: Json, w: Json)
    requires LegalKeys(u, v)
    ensures Produces(u, v, w) <==> w == v
  {
    ProducesIff(u, v, w);
    LegalKeysNonEmpty(u, v);
    LegalSanitizes(u, v, w);
  }

  lemma {:induction false} LegalKeysNonEmpty(u: Unicode, v: Json)
    requires LegalKeys(u, v)
    ensures NonEmptyKeys(v)
  {
    if v.Obj? {
      forall k | k in v.fields ensures NonEmptyKeys(v.fields[k]) { LegalKeysNonEmpty(u, v.fields[k]); }
    }
  }

  lemma {:induction false} LegalSanitizes(u: Unicode, v: Json, w: Json)
    requires LegalKeys(u, v)
    ensures Sanitizes(u, v, w) <==> w == v
    decreases v
  {
    if v.Obj? {
      var m := v.fields;
      forall k | k in m ensures SanitizedKey(u, k) == k { LegalKeyKept(u, k); }
      assert Image(u, m.Keys) == m.Keys;
      if w.Obj? && w.fields.Keys == m.Keys {
        forall k | k in m ensures Sanitizes(u, m[k], w.fields[k]) <==> w.fields[k] == m[k] {
          LegalSanitizes(u, m[k], w.fields[k]);
        }
        LegalFields(u, m, w.fields);
      }
    }
  }

  lemma LegalFields(u: Unicode, m: map<string, Json>, w: map<string, Json>)
    requires w.Keys == m.Keys && Image(u, m.Keys) == m.Keys
    requires forall k :: k in m ==> k != "" && SanitizedKey(u, k) == k
    requires forall k :: k in m ==> (Sanitizes(u, m[k], w[k]) <==> w[k] == m[k])
    ensures Sanitizes(u, Obj(m), Obj(w)) <==> w == m
  {
    if Sanitizes(u, Obj(m), Obj(w)) {
      forall k' | k' in w ensures w[k'] == m[k'] {
        assert k' in Obj(w).fields;
        var k :| k in m && SanitizedKey(u, k) == k' && Sanitizes(u, m[k], w[k']);
      }
    }
    if w == m {
      forall k' | k' in w ensures exists k :: k in m && SanitizedKey(u, k) == k' && Sanitizes(u, m[k], w[k']) {
        assert SanitizedKey(u, k') == k' && Sanitizes(u, m[k'], w[k']);
      }
    }
  }

  ghost predicate AsciiKeys(v: Json) {
    v.Obj? ==> forall k :: k in v.fields ==> k != "" && k[0] as int < 0x80 && AsciiKeys(v.fields[k])
  }

  /** In particular every row is clean if all keys are non-empty and start with an ASCII character. */
  lemma AsciiRowsClean(u: Unicode, v: Json, w: Json)
    requires AsciiKeys(v) && Produces(u, DropNils(v), w)
    ensures NoNils(w) && IdentifierKeys(u, w)
  {
    AsciiSafe(u, v);
    ProducesIff(u, DropNils(v), w);
    DropNilsLeavesNone(v);
    SanitizeKeepsNoNils(u, DropNils(v), w);
    SanitizeMakesIdentifiers(u, DropNils(v), w);
  }

  lemma {:induction false} AsciiSafe(u: Unicode, v: Json)
    requires AsciiKeys(v)
    ensures NonEmptyKeys(DropNils(v)) && SafeKeys(u, DropNils(v))
  {
    if v.Obj? {
      forall k | k in v.fields
        ensures NonEmptyKeys(DropNils(v.fields[k])) && SafeKeys(u, DropNils(v.fields[k])) && !MisleadingDigit(u, k[0])
      {
        AsciiSafe(u, v.fields[k]);
        AsciiKeysSafe(u, k);
        SanitizedIdentifierIff(u, k);
      }
    }
  }

  // ---------- Without collisions ----------

  /** At every depth: no key is empty, and no two keys of one map are sanitised to the same one. */
  ghost predicate NoCollisions(u: Unicode, v: Json) {
    v.Obj? ==>
      && (forall k :: k in v.fields ==> k != "")
      && (forall a, b :: a in v.fields && b in v.fields && SanitizedKey(u, a) == SanitizedKey(u, b) ==> a == b)
      && forall k :: k in v.fields ==> NoCollisions(u, v.fields[k])
  }

  lemma SanitizedAt(u: Unicode, v: Json, k: string)
    requires NoCollisions(u, v) && v.Obj? && k in v.fields
    ensures var s := Sanitized(u, v).fields;
            && SanitizedKey(u, k) in s && s[SanitizedKey(u, k)] == Sanitized(u, v.fields[k])
  {
    assert Origin(u, v.fields.Keys, SanitizedKey(u, k)) == k;
  }

  lemma SanitizedKeys(u: Unicode, v: Json)
    requires v.Obj?
    ensures Sanitized(u, v).fields.Keys == Image(u, v.fields.Keys)
  {
  }

  /** If no two keys of one map collide, iteration order does not matter: there is one result. */
  lemma {:induction false} SanitizeUnique(u: Unicode, v: Json, w: Json)
    requires NoCollisions(u, v)
    ensures Sanitizes(u, v, w) <==> w == Sanitized(u, v)
    decreases v
  {
    if v.Obj? {
      var s := Sanitized(u, v);
      SanitizedKeys(u, v);
      if Sanitizes(u, v, w) {
        forall k' | k' in w.fields ensures k' in s.fields && w.fields[k'] == s.fields[k'] {
          var k :| k in v.fields && SanitizedKey(u, k) == k' && Sanitizes(u, v.fields[k], w.fields[k']);
          SanitizeUnique(u, v.fields[k], w.fields[k']);
          SanitizedAt(u, v, k);
        }
        assert w.fields == s.fields;
      }
      if w == s {
        forall k' | k' in w.fields
          ensures exists k :: k in v.fields && SanitizedKey(u, k) == k' && Sanitizes(u, v.fields[k], w.fields[k'])
        {
          var k :| k in v.fields && SanitizedKey(u, k) == k';
          SanitizeUnique(u, v.fields[k], w.fields[k']);
          SanitizedAt(u, v, k);
        }
      }
    }
  }

  /** There is exactly one row then, whatever the iteration orders. */
  lemma {:induction false} RowUnique(u: Unicode, v: Json, w: Json)
    requires NoCollisions(u, v)
    ensures Produces(u, v, w) <==> w == Sanitized(u, v)
  {
    ProducesIff(u, v, w);
    SanitizeUnique(u, v, w);
    NoCollisionsNonEmpty(u, v);
  }

  lemma {:induction false} NoCollisionsNonEmpty(u: Unicode, v: Json)
    requires NoCollisions(u, v)
    ensures NonEmptyKeys(v)
  {
    if v.Obj? {
      forall k | k in v.fields ensures NonEmptyKeys(v.fields[k]) { NoCollisionsNonEmpty(u, v.fields[k]); }
    }
  }

  lemma {:induction false} DropNilsCollisionFree(u: Unicode, v: Json)
    requires NoCollisions(u, v)
    ensures NoCollisions(u, DropNils(v))
  {
    if v.Obj? {
      forall k | k in v.fields ensures NoCollisions(u, DropNils(v.fields[k])) {
        DropNilsCollisionFree(u, v.fields[k]);
      }
    }
  }

  lemma {:induction false} SanitizedNull(u: Unicode, v: Json)
    ensures Sanitized(u, v) == Null <==> v == Null
  {
  }

  /** Without collisions it does not matter which of the two rewrites comes first. */
  lemma {:induction false} RewritesCommute(u: Unicode, v: Json)
    requires NoCollisions(u, v)
    ensures Sanitized(u, DropNils(v)) == DropNils(Sanitized(u, v))
    decreases v, 1
  {
    if v.Obj? {
      var a, b := Sanitized(u, DropNils(v)).fields, DropNils(Sanitized(u, v)).fields;
      forall k' | k' in a || k' in b ensures AgreeAt(a, b, k') { FieldCommutes(u, v, a, b, k'); }
      SameMap(a, b);
    }
  }

  ghost predicate AgreeAt(a: map<string, Json>, b: map<string, Json>, k': string) {
    k' in a && k' in b && a[k'] == b[k']
  }

  lemma SameMap(a: map<string, Json>, b: map<string, Json>)
    requires forall k' :: k' in a || k' in b ==> AgreeAt(a, b, k')
    ensures a == b
  {
    assert forall k' :: k' in a ==> AgreeAt(a, b, k');
    assert forall k' :: k' in b ==> AgreeAt(a, b, k');
  }

  lemma {:induction false} FieldCommutes(u: Unicode, v: Json, a: map<string, Json>, b: map<string, Json>, k': string)
    requires NoCollisions(u, v) && v.Obj? && (k' in a || k' in b)
    requires a == Sanitized(u, DropNils(v)).fields && b == DropNils(Sanitized(u, v)).fields
    ensures AgreeAt(a, b, k')
    decreases v, 0
  {
    var k := CommonOrigin(u, v, k');
    CommuteAt(u, v, k);
    RewritesCommute(u, v.fields[k]);
  }

  lemma CommonOrigin(u: Unicode, v: Json, k': string) returns (k: string)
    requires NoCollisions(u, v) && v.Obj?
    requires k' in Sanitized(u, DropNils(v)).fields || k' in DropNils(Sanitized(u, v)).fields
    ensures k in v.fields && SanitizedKey(u, k) == k'
  {
    SanitizedKeys(u, v);
    SanitizedKeys(u, DropNils(v));
    k :| k in v.fields && SanitizedKey(u, k) == k';
  }

  lemma CommuteAt(u: Unicode, v: Json, k: string)
    requires NoCollisions(u, v) && v.Obj? && k in v.fields
    ensures var k' := SanitizedKey(u, k);
            var a, b := Sanitized(u, DropNils(v)).fields, DropNils(Sanitized(u, v)).fields;
            && (k' in a <==> v.fields[k] != Null) && (k' in b <==> v.fields[k] != Null)
            && (v.fields[k] != Null ==>
                  a[k'] == Sanitized(u, DropNils(v.fields[k])) && b[k'] == DropNils(Sanitized(u, v.fields[k])))
  {
    DroppedFirst(u, v, k);
    SanitizedAt(u, v, k);
    SanitizedNull(u, v.fields[k]);
  }

  lemma DroppedFirst(u: Unicode, v: Json, k: string)
    requires NoCollisions(u, v) && v.Obj? && k in v.fields
    ensures var k', a := SanitizedKey(u, k), Sanitized(u, DropNils(v)).fields;
            && (k' in a <==> v.fields[k] != Null)
            && (v.fields[k] != Null ==> a[k'] == Sanitized(u, DropNils(v.fields[k])))
  {
    if v.fields[k] != Null {
      DropNilsCollisionFree(u, v);
      SanitizedAt(u, DropNils(v), k);
    } else {
      SanitizedKeys(u, DropNils(v));
      assert SanitizedKey(u, k) !in Image(u, DropNils(v).fields.Keys);
    }
  }

  // ---------- No leaf is lost ----------

  /** The value at a path of map keys. */
  function At(v: Json, path: seq<string>): Option<Json> {
    if |path| == 0 then Some(v)
    else if v.Obj? && path[0] in v.fields then At(v.fields[path[0]], path[1..])
    else None
  }

  /** Dropping nils takes away the nils that maps hold and nothing else: every other path stays, with an
      object, even an empty one, where there was one and the same value where there was not. */
  lemma {:induction false} DropNilsPaths(v: Json, path: seq<string>)
    ensures var x, y := At(v, path), At(DropNils(v), path);
            && (y.Some? <==> x.Some? && (path == [] || x.value != Null))
            && (y.Some? ==> (y.value.Obj? <==> x.value.Obj?) && (!x.value.Obj? ==> y == x))
    decreases |path|
  {
    if |path| > 0 && v.Obj? && path[0] in v.fields {
      if v.fields[path[0]] != Null {
        DropNilsPaths(v.fields[path[0]], path[1..]);
      } else if |path| > 1 {
        assert At(Null, path[1..]) == None;
      }
    }
  }

  function FixPath(u: Unicode, path: seq<string>): seq<string>
    requires forall i :: 0 <= i < |path| ==> path[i] != ""
  {
    seq(|path|, i requires 0 <= i < |path| => SanitizedKey(u, path[i]))
  }

  ghost predicate Leaf(x: Option<Json>) { x.Some? && !x.value.Obj? && x.value != Null }

  lemma NullHasNoLeaf(path: seq<string>)
    ensures !Leaf(At(Null, path))
  {
  }

  lemma FixPathStep(u: Unicode, k: string, rest: seq<string>)
    requires k != "" && forall i :: 0 <= i < |rest| ==> rest[i] != ""
    ensures FixPath(u, [k] + rest) == [SanitizedKey(u, k)] + FixPath(u, rest)
  {
  }

  /** Every non-nil leaf is found again under the sanitised path. */
  lemma {:induction false} LeavesKept(u: Unicode, v: Json, path: seq<string>)
    requires NoCollisions(u, v) && Leaf(At(v, path))
    ensures forall i :: 0 <= i < |path| ==> path[i] != ""
    ensures At(Sanitized(u, DropNils(v)), FixPath(u, path)) == At(v, path)
    decreases |path|
  {
    if |path| > 0 {
      var k, rest := path[0], path[1..];
      NullHasNoLeaf(rest);
      LeavesKept(u, v.fields[k], rest);
      assert path == [k] + rest;
      LeafUnder(u, v, k, rest);
    }
  }

  lemma LeafUnder(u: Unicode, v: Json, k: string, rest: seq<string>)
    requires NoCollisions(u, v) && v.Obj? && k in v.fields && v.fields[k] != Null
    requires k != "" && forall i :: 0 <= i < |rest| ==> rest[i] != ""
    requires At(Sanitized(u, DropNils(v.fields[k])), FixPath(u, rest)) == At(v.fields[k], rest)
    ensures At(Sanitized(u, DropNils(v)), FixPath(u, [k] + rest)) == At(v, [k] + rest)
  {
    FixPathStep(u, k, rest);
    DroppedFirst(u, v, k);
    AtStep(Sanitized(u, DropNils(v)), SanitizedKey(u, k), FixPath(u, rest));
    AtStep(v, k, rest);
  }

  /** And no leaf is invented: every leaf of the result was there, under a path that sanitises to its own. */
  lemma {:induction false} LeavesStem(u: Unicode, v: Json, path': seq<string>) returns (path: seq<string>)
    requires NoCollisions(u, v)
    requires Leaf(At(Sanitized(u, DropNils(v)), path'))
    ensures forall i :: 0 <= i < |path| ==> path[i] != ""
    ensures FixPath(u, path) == path' && At(v, path) == At(Sanitized(u, DropNils(v)), path')
    decreases |path'|
  {
    if |path'| == 0 {
      path := [];
    } else {
      var k := StemStep(u, v, path');
      var rest := LeavesStem(u, v.fields[k], path'[1..]);
      path := [k] + rest;
      StemUnder(u, v, k, rest, path');
    }
  }

  lemma StemUnder(u: Unicode, v: Json, k: string, rest: seq<string>, path': seq<string>)
    requires v.Obj? && k in v.fields && k != "" && forall i :: 0 <= i < |rest| ==> rest[i] != ""
    requires |path'| > 0 && SanitizedKey(u, k) == path'[0] && FixPath(u, rest) == path'[1..]
    ensures forall i :: 0 <= i < |[k] + rest| ==> ([k] + rest)[i] != ""
    ensures FixPath(u, [k] + rest) == path' && At(v, [k] + rest) == At(v.fields[k], rest)
  {
    FixPathStep(u, k, rest);
    AtStep(v, k, rest);
  }

  lemma AtStep(v: Json, k: string, rest: seq<string>)
    requires v.Obj? && k in v.fields
    ensures At(v, [k] + rest) == At(v.fields[k], rest)
  {
    assert ([k] + rest)[0] == k && ([k] + rest)[1..] == rest;
  }

  lemma StemStep(u: Unicode, v: Json, path': seq<string>) returns (k: string)
    requires NoCollisions(u, v)
    requires |path'| > 0 && At(Sanitized(u, DropNils(v)), path').Some?
    ensures v.Obj? && k in v.fields && k != "" && SanitizedKey(u, k) == path'[0]
    ensures NoCollisions(u, v.fields[k])
    ensures At(Sanitized(u, DropNils(v)), path') == At(Sanitized(u, DropNils(v.fields[k])), path'[1..])
  {
    DropNilsCollisionFree(u, v);
    SanitizedKeys(u, DropNils(v));
    k :| k in DropNils(v).fields && SanitizedKey(u, k) == path'[0];
    SanitizedAt(u, DropNils(v), k);
  }
}
