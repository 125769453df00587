// writeCanonical of internal/toolgateway/toolgateway.go, over the values that a
// decoded JSON text or a payload holds. A string's characters are its code points; UTF-8 keeps their
// order.
module CanonicalJson {
  import opened Domain
  import opened Sequences

  predicate NumberChar(c: char) {
    '0' <= c <= '9' || c == '-' || c == '+' || c == '.' || c == 'e' || c == 'E'
  }

  predicate IsNumeral(s: string) {
    s != "" && ('0' <= s[0] <= '9' || s[0] == '-') && forall i :: 0 <= i < |s| ==> NumberChar(s[i])
  }

  // A number as json.Marshal writes it.
  type Numeral = s: string | IsNumeral(s) witness "0"

  // `Strings` is Go's []string and `Array` its []any.
  datatype Value =
    | Object(fields: map<string, Value>)
    | Strings(items: seq<string>)
    | Array(elements: seq<Value>)
    | Text(text: string)
    | Number(literal: Numeral)
    | Bool(b: bool)
    | Null

  // ---- Strings, as json.Marshal writes them.

  function HexDigit(n: nat): char
    requires n < 16
  {
    ((if n < 10 then '0' as int else 'a' as int - 10) + n) as char
  }

  // The last `digits` hexadecimal digits of n.
  function Hex(n: nat, digits: nat): (s: string)
    ensures |s| == digits
  {
    if digits == 0 then "" else Hex(n / 16, digits - 1) + [HexDigit(n % 16)]
  }

  predicate NeedsCode(c: char) {
    c < ' ' || c == '<' || c == '>' || c == '&' || c == '\U{2028}' || c == '\U{2029}'
  }

  // The letter of a two-character escape.
  function Short(c: char): string {
    match c
    case '"' => "\""
    case '\\' => "\\"
    case '\U{8}' => "b"
    case '\U{c}' => "f"
    case '\n' => "n"
    case '\r' => "r"
    case '\t' => "t"
    case _ => ""
  }

  function Escape(c: char): (s: string)
    ensures s != "" && s[0] != '"'
  {
    if Short(c) != "" then "\\" + Short(c)
    else if NeedsCode(c) then "\\u" + Hex(c as int, 4)
    else [c]
  }

  function Escapes(s: string): string {
    if s == "" then "" else Escape(s[0]) + Escapes(s[1..])
  }

  function JsonString(s: string): string {
    "\"" + Escapes(s) + "\""
  }

  // ---- Strings, as a JSON text is read: section 7 of RFC 8259. Only characters outside the surrogate
  // range are escaped here, so pairs of escapes do not occur.

  function HexValue(c: char): Option<nat> {
    if '0' <= c <= '9' then Some(c as int - '0' as int)
    else if 'a' <= c <= 'f' then Some(c as int - 'a' as int + 10)
    else if 'A' <= c <= 'F' then Some(c as int - 'A' as int + 10)
    else None
  }

  function ReadHex(s: string): (n: Option<nat>)
    ensures n.Some? ==> n.value < Power16(|s|)
  {
    if s == "" then Some(0)
    else
      var k := |s| - 1;
      match ReadHex(s[..k])
      case None => None
      case Some(n) => if HexValue(s[k]).Some? then Some(16 * n + HexValue(s[k]).value) else None
  }

  function Power16(k: nat): nat {
    if k == 0 then 1 else 16 * Power16(k - 1)
  }

  // What the letter after a backslash stands for.
  function Unescaped(c: char): Option<char> {
    match c
    case '"' => Some('"')
    case '\\' => Some('\\')
    case '/' => Some('/')
    case 'b' => Some('\U{8}')
    case 'f' => Some('\U{c}')
    case 'n' => Some('\n')
    case 'r' => Some('\r')
    case 't' => Some('\t')
    case _ => None
  }

  // One character of a string, and what follows it.
  function ReadChar(s: string): (o: Option<(char, string)>)
    requires s != ""
    ensures o.Some? ==> |o.value.1| < |s|
  {
    if s[0] != '\\' then (if s[0] < ' ' then None else Some((s[0], s[1..])))
    else if |s| >= 6 && s[1] == 'u' then
      match ReadHex(s[2..6])
      case Some(n) => if n < 0xD800 || 0xE000 <= n < 0x1_0000 then Some((n as char, s[6..])) else None
      case None => None
    else if |s| >= 2 && Unescaped(s[1]).Some? then Some((Unescaped(s[1]).value, s[2..]))
    else None
  }

  // A string from behind its opening quotation mark, and what follows it.
  function ReadString(s: string): (o: Option<(string, string)>)
    ensures o.Some? ==> |o.value.1| < |s|
    decreases |s|
  {
    if s == "" then None
    else if s[0] == '"' then Some(("", s[1..]))
    else
      match ReadChar(s)
      case None => None
      case Some((c, rest)) =>
        match ReadString(rest)
        case None => None
        case Some((text, rest')) => Some(([c] + text, rest'))
  }

  lemma {:induction false} HexReads(n: nat, digits: nat)
    requires n < Power16(digits)
    ensures ReadHex(Hex(n, digits)) == Some(n)
  {
    if digits > 0 {
      HexReads(n / 16, digits - 1);
      var s := Hex(n, digits);
      assert s[..digits - 1] == Hex(n / 16, digits - 1);
      assert HexValue(s[digits - 1]) == Some(n % 16);
    }
  }

  lemma EscapeReads(c: char, rest: string)
    ensures ReadChar(Escape(c) + rest) == Some((c, rest))
  {
    var s := Escape(c) + rest;
    assert s[|Escape(c)|..] == rest;
    if Short(c) == "" && NeedsCode(c) {
      assert Power16(4) == 0x10000 by {
        assert Power16(2) == 256;
      }
      HexReads(c as int, 4);
      assert s[2..6] == Hex(c as int, 4);
    }
    hide Hex, ReadHex;
  }

  // What is escaped is read back.
  lemma {:induction false} EscapesRead(s: string, rest: string)
    ensures ReadString(Escapes(s) + "\"" + rest) == Some((s, rest))
  {
    var t := Escapes(s) + "\"" + rest;
    if s == "" {
      assert t[1..] == rest;
    } else {
      EscapesRead(s[1..], rest);
      hide Escape;
      assert t == Escape(s[0]) + (Escapes(s[1..]) + "\"" + rest);
      EscapeReads(s[0], Escapes(s[1..]) + "\"" + rest);
      hide ReadChar;
      SplitHead(s);
    }
  }

  lemma StringReads(s: string, rest: string)
    ensures JsonString(s) + rest != "" && (JsonString(s) + rest)[0] == '"'
    ensures ReadString((JsonString(s) + rest)[1..]) == Some((s, rest))
  {
    hide Escapes, ReadString;
    assert (JsonString(s) + rest)[1..] == Escapes(s) + "\"" + rest;
    EscapesRead(s, rest);
  }

  // ---- Keys in order.

  // Strictly before, byte by byte.
  predicate Before(a: string, b: string) {
    b != "" && (a == "" || a[0] < b[0] || (a[0] == b[0] && Before(a[1..], b[1..])))
  }

  // The order is that of the first difference, and a beginning comes first.
  lemma {:induction false} BeforeIsLexicographic(a: string, b: string)
    ensures Before(a, b) <==>
      exists k :: 0 <= k <= |a| && k < |b| && a[..k] == b[..k] && (k == |a| || a[k] < b[k])
  {
    if b == "" {
    } else if a == "" {
      assert a[..0] == b[..0];
    } else if a[0] < b[0] {
      assert a[..0] == b[..0];
    } else if a[0] == b[0] {
      BeforeIsLexicographic(a[1..], b[1..]);
      forall k | 0 <= k < |a| && k + 1 < |b| ensures a[..k + 1] == b[..k + 1] <==> a[1..][..k] == b[1..][..k] {
        assert a[..k + 1] == [a[0]] + a[1..][..k] && b[..k + 1] == [b[0]] + b[1..][..k];
        assert a[..k + 1][1..] == a[1..][..k] && b[..k + 1][1..] == b[1..][..k];
      }
      if k :| 0 <= k <= |a| && k < |b| && a[..k] == b[..k] && (k == |a| || a[k] < b[k]) {
        assert k > 0;
        assert a[..k - 1 + 1] == b[..k - 1 + 1];
        assert a[1..][..k - 1] == b[1..][..k - 1];
      }
      if Before(a, b) {
        var k :| 0 <= k <= |a[1..]| && k < |b[1..]| && a[1..][..k] == b[1..][..k]
            && (k == |a[1..]| || a[1..][k] < b[1..][k]);
        assert a[..k + 1] == b[..k + 1];
      }
    } else {
      assert forall k :: 0 < k <= |a| && k < |b| && a[..k] == b[..k] ==> a[..k][0] == b[..k][0];
    }
  }

  lemma {:induction false} BeforeIsTotal(a: string, b: string)
    ensures a == b || Before(a, b) || Before(b, a)
  {
    if a != "" && b != "" && a[0] == b[0] {
      BeforeIsTotal(a[1..], b[1..]);
      SplitHead(a);
      SplitHead(b);
    }
  }

  lemma {:induction false} BeforeIsTransitive(a: string, b: string, c: string)
    requires Before(a, b) && Before(b, c)
    ensures Before(a, c)
  {
    if a != "" && a[0] == b[0] == c[0] {
      BeforeIsTransitive(a[1..], b[1..], c[1..]);
    }
  }

  lemma {:induction false} BeforeIsStrict(a: string, b: string)
    requires Before(a, b)
    ensures a != b && !Before(b, a)
  {
    if a != "" && a[0] == b[0] {
      BeforeIsStrict(a[1..], b[1..]);
    }
  }

  ghost predicate Ascending(keys: seq<string>) {
    forall i, j :: 0 <= i < j < |keys| ==> Before(keys[i], keys[j])
  }

  ghost predicate Lists(keys: seq<string>, s: set<string>) {
    Ascending(keys) && forall k :: k in keys <==> k in s
  }

  // A set of keys has one ascending list.
  lemma {:induction false} AscendingListIsUnique(a: seq<string>, b: seq<string>)
    requires Ascending(a) && Ascending(b) && forall k :: k in a <==> k in b
    ensures a == b
  {
    if a != [] && b != [] {
      assert a[0] in b && b[0] in a;
      forall i | 0 < i < |a| ensures a[i] != a[0] && !Before(a[i], a[0]) {
        BeforeIsStrict(a[0], a[i]);
      }
      forall i | 0 < i < |b| ensures b[i] != b[0] && !Before(b[i], b[0]) {
        BeforeIsStrict(b[0], b[i]);
      }
      assert a[0] == b[0];
      forall k ensures k in a[1..] <==> k in b[1..] {
        SplitHead(a);
        SplitHead(b);
        assert k in a <==> k == a[0] || k in a[1..];
        assert k in b <==> k == b[0] || k in b[1..];
        assert a[0] !in a[1..] && b[0] !in b[1..];
      }
      AscendingListIsUnique(a[1..], b[1..]);
      SplitHead(a);
      SplitHead(b);
    } else {
      HasMember(a);
      HasMember(b);
    }
  }

  // The list with one more key in its place.
  function Insert(keys: seq<string>, k: string): seq<string> {
    if keys == [] || Before(k, keys[0]) then [k] + keys else [keys[0]] + Insert(keys[1..], k)
  }

  lemma {:induction false} InsertKeepsOrder(keys: seq<string>, k: string)
    requires Ascending(keys) && k !in keys
    ensures Ascending(Insert(keys, k)) && forall x :: x in Insert(keys, k) <==> x in keys || x == k
  {
    if keys == [] {
    } else if Before(k, keys[0]) {
      forall i | 0 <= i < |keys| ensures Before(k, keys[i]) {
        if i > 0 {
          BeforeIsTransitive(k, keys[0], keys[i]);
        }
      }
    } else {
      BeforeIsTotal(k, keys[0]);
      InsertKeepsOrder(keys[1..], k);
      SplitHead(keys);
      var rest := Insert(keys[1..], k);
      forall i | 0 <= i < |rest| ensures Before(keys[0], rest[i]) {
        assert rest[i] in rest;
        if rest[i] != k {
          var j :| 0 <= j < |keys[1..]| && keys[1..][j] == rest[i];
          assert keys[j + 1] == rest[i];
        }
      }
    }
  }

  ghost function KeyList(s: set<string>): (keys: seq<string>)
    ensures Lists(keys, s)
  {
    if s == {} then []
    else
      var k :| k in s;
      var rest := KeyList(s - {k});
      InsertKeepsOrder(rest, k);
      Insert(rest, k)
  }

  // sort.Strings on distinct keys
  method SortStrings(keys: seq<string>) returns (sorted: seq<string>)
    requires forall i, j :: 0 <= i < j < |keys| ==> keys[i] != keys[j]
    ensures Ascending(sorted) && forall k :: k in sorted <==> k in keys
  {
    sorted := [];
    for i := 0 to |keys|
      invariant Ascending(sorted) && forall k :: k in sorted <==> k in keys[..i]
    {
      assert keys[..i + 1] == keys[..i] + [keys[i]];
      InsertKeepsOrder(sorted, keys[i]);
      sorted := Insert(sorted, keys[i]);
    }
    assert keys[..|keys|] == keys;
  }

  // ---- The encoding.

  function StringItems(items: seq<string>): string {
    if items == [] then ""
    else if |items| == 1 then JsonString(items[0])
    else JsonString(items[0]) + "," + StringItems(items[1..])
  }

  ghost function Fields(v: Value, keys: seq<string>): string
    requires v.Object? && forall k :: k in keys ==> k in v.fields
    decreases v, 0, |keys|
  {
    if keys == [] then ""
    else
      var field := JsonString(keys[0]) + ":" + Canonical(v.fields[keys[0]]);
      if |keys| == 1 then field else field + "," + Fields(v, keys[1..])
  }

  ghost function Elements(v: Value, n: nat): string
    requires v.Array? && n <= |v.elements|
    decreases v, 0, |v.elements| - n
  {
    if n == |v.elements| then ""
    else if n + 1 == |v.elements| then Canonical(v.elements[n])
    else Canonical(v.elements[n]) + "," + Elements(v, n + 1)
  }

  ghost function Canonical(v: Value): string
    decreases v, 1, 0
  {
    match v
    case Object(fields) => "{" + Fields(v, KeyList(fields.Keys)) + "}"
    case Strings(items) => "[" + StringItems(items) + "]"
    case Array(elements) => "[" + Elements(v, 0) + "]"
    case Text(text) => JsonString(text)
    case Number(literal) => literal
    case Bool(b) => if b then "true" else "false"
    case Null => "null"
  }

  // bytes.Buffer
  class Buffer {
    var bytes: string

    constructor ()
      ensures bytes == ""
    {
      bytes := "";
    }

    method Write(s: string)
      modifies this
      ensures bytes == old(bytes) + s
    {
      bytes := bytes + s;
    }
  }

  // Whatever order the map yields its keys in, what is written is a function of the value.
  method WriteCanonical(buf: Buffer, v: Value)
    modifies buf
    ensures buf.bytes == old(buf.bytes) + Canonical(v)
    decreases v, 2
  {
    hide Fields, Elements, StringItems, JsonString;
    match v
    case Object(fields) => WriteObject(buf, v);
    case Strings(items) => WriteStrings(buf, items);
    case Array(elements) => WriteArray(buf, v);
    case Text(text) => buf.Write(JsonString(text));
    case Number(literal) => buf.Write(literal);
    case Bool(b) => buf.Write(if b then "true" else "false");
    case Null => buf.Write("null");
  }

  method KeysOf(fields: map<string, Value>) returns (keys: seq<string>)
    ensures Lists(keys, fields.Keys)
  {
    keys := [];
    var rest := fields.Keys;
    while rest != {}
      invariant rest <= fields.Keys
      invariant forall k :: k in keys <==> k in fields.Keys - rest
      invariant forall i, j :: 0 <= i < j < |keys| ==> keys[i] != keys[j]
      decreases rest
    {
      var k :| k in rest;
      assert k !in keys;
      ghost var before := keys;
      keys := keys + [k];
      assert forall x :: x in keys <==> x in before || x == k;
      rest := rest - {k};
    }
    keys := SortStrings(keys);
  }

  // What is left to write from the i-th item on: the separator if one is due, and the rest.
  ghost function Separator(i: nat, n: nat): string {
    if 0 < i < n then "," else ""
  }

  lemma FieldsFrom(v: Value, keys: seq<string>, i: nat)
    requires v.Object? && (forall k :: k in keys ==> k in v.fields) && i < |keys|
    ensures Fields(v, keys[i..])
         == JsonString(keys[i]) + ":" + Canonical(v.fields[keys[i]]) + Separator(i + 1, |keys|)
             + Fields(v, keys[i + 1..])
  {
    hide JsonString, Canonical;
    assert keys[i..][1..] == keys[i + 1..];
    var field := JsonString(keys[i]) + ":" + Canonical(v.fields[keys[i]]);
    if i + 1 == |keys| {
      NothingAdded(field);
    }
  }

  lemma ItemsFrom(items: seq<string>, i: nat)
    requires i < |items|
    ensures StringItems(items[i..]) == JsonString(items[i]) + Separator(i + 1, |items|) + StringItems(items[i + 1..])
  {
    hide JsonString;
    assert items[i..][1..] == items[i + 1..];
    if i + 1 == |items| {
      NothingAdded(JsonString(items[i]));
    }
  }

  lemma ElementsFrom(v: Value, i: nat)
    requires v.Array? && i < |v.elements|
    ensures Elements(v, i) == Canonical(v.elements[i]) + Separator(i + 1, |v.elements|) + Elements(v, i + 1)
  {
    hide Canonical;
    if i + 1 == |v.elements| {
      NothingAdded(Canonical(v.elements[i]));
    }
  }

  lemma Regroup(x: string, item: string, separator: string, rest: string)
    ensures x + item + separator + rest == x + (item + separator + rest)
  {
  }

  lemma RegroupField(x: string, key: string, value: string)
    ensures x + key + ":" + value == x + (key + ":" + value)
  {
  }

  method WriteSeparator(buf: Buffer, i: nat, n: nat)
    requires i < n
    modifies buf
    ensures buf.bytes == old(buf.bytes) + Separator(i, n)
  {
    NothingAdded(buf.bytes);
    if i > 0 {
      buf.Write(",");
    }
  }

  method WriteField(buf: Buffer, v: Value, k: string)
    requires v.Object? && k in v.fields
    modifies buf
    ensures buf.bytes == old(buf.bytes) + (JsonString(k) + ":" + Canonical(v.fields[k]))
    decreases v, 0
  {
    hide JsonString, Canonical;
    RegroupField(buf.bytes, JsonString(k), Canonical(v.fields[k]));
    buf.Write(JsonString(k));
    buf.Write(":");
    WriteCanonical(buf, v.fields[k]);
  }

  method WriteObject(buf: Buffer, v: Value)
    requires v.Object?
    modifies buf
    ensures buf.bytes == old(buf.bytes) + ("{" + Fields(v, KeyList(v.fields.Keys)) + "}")
    decreases v, 1
  {
    hide JsonString, Canonical;
    var keys := KeysOf(v.fields);
    AscendingListIsUnique(keys, KeyList(v.fields.Keys));
    hide Fields, KeyList, Lists, Ascending;
    Regroup(buf.bytes, "{", Fields(v, keys), "}");
    buf.Write("{");
    ghost var start := buf.bytes;
    assert keys[0..] == keys;
    NothingAdded(start);
    for i := 0 to |keys|
      invariant buf.bytes + Separator(i, |keys|) + Fields(v, keys[i..]) == start + Fields(v, keys)
    {
      assert keys[i] in keys;
      FieldsFrom(v, keys, i);
      ghost var field := JsonString(keys[i]) + ":" + Canonical(v.fields[keys[i]]);
      Regroup(buf.bytes + Separator(i, |keys|), field, Separator(i + 1, |keys|), Fields(v, keys[i + 1..]));
      WriteSeparator(buf, i, |keys|);
      WriteField(buf, v, keys[i]);
    }
    NoFields(v, keys);
    NothingAdded(buf.bytes);
    buf.Write("}");
  }

  lemma NoFields(v: Value, keys: seq<string>)
    requires v.Object? && forall k :: k in keys ==> k in v.fields
    ensures Fields(v, keys[|keys|..]) == ""
  {
  }

  method WriteStrings(buf: Buffer, items: seq<string>)
    modifies buf
    ensures buf.bytes == old(buf.bytes) + ("[" + StringItems(items) + "]")
  {
    assert StringItems(items[|items|..]) == "";
    hide JsonString, StringItems;
    Regroup(buf.bytes, "[", StringItems(items), "]");
    buf.Write("[");
    ghost var start := buf.bytes;
    assert items[0..] == items;
    NothingAdded(start);
    for i := 0 to |items|
      invariant buf.bytes + Separator(i, |items|) + StringItems(items[i..]) == start + StringItems(items)
    {
      ItemsFrom(items, i);
      Regroup(buf.bytes + Separator(i, |items|), JsonString(items[i]), Separator(i + 1, |items|),
          StringItems(items[i + 1..]));
      WriteSeparator(buf, i, |items|);
      buf.Write(JsonString(items[i]));
    }
    NothingAdded(buf.bytes);
    buf.Write("]");
  }

  method WriteArray(buf: Buffer, v: Value)
    requires v.Array?
    modifies buf
    ensures buf.bytes == old(buf.bytes) + ("[" + Elements(v, 0) + "]")
    decreases v, 1
  {
    assert Elements(v, |v.elements|) == "";
    hide JsonString, Canonical, Elements;
    Regroup(buf.bytes, "[", Elements(v, 0), "]");
    buf.Write("[");
    ghost var start := buf.bytes;
    NothingAdded(start);
    for i := 0 to |v.elements|
      invariant buf.bytes + Separator(i, |v.elements|) + Elements(v, i) == start + Elements(v, 0)
    {
      ElementsFrom(v, i);
      Regroup(buf.bytes + Separator(i, |v.elements|), Canonical(v.elements[i]), Separator(i + 1, |v.elements|),
          Elements(v, i + 1));
      WriteSeparator(buf, i, |v.elements|);
      WriteCanonical(buf, v.elements[i]);
    }
    NothingAdded(buf.bytes);
    buf.Write("]");
  }

  // ---- The encoding tells values apart.

  // The value with every list of strings typed as a list of values: JSON has one kind of list.
  ghost function Plain(v: Value): Value {
    match v
    case Object(fields) => Object(map k | k in fields :: Plain(fields[k]))
    case Strings(items) => Array(seq(|items|, i requires 0 <= i < |items| => Text(items[i])))
    case Array(elements) => Array(seq(|elements|, i requires 0 <= i < |elements| => Plain(elements[i])))
    case _ => v
  }

  lemma {:induction false} FieldsAlike(v: Value, w: Value, keys: seq<string>)
    requires v.Object? && w.Object? && forall k :: k in keys ==> k in v.fields && k in w.fields
    requires forall k :: k in keys ==> Canonical(v.fields[k]) == Canonical(w.fields[k])
    ensures Fields(v, keys) == Fields(w, keys)
  {
    hide Canonical, JsonString;
    if |keys| > 1 {
      FieldsAlike(v, w, keys[1..]);
    }
  }

  lemma {:induction false} ElementsAlike(v: Value, w: Value, n: nat)
    requires v.Array? && w.Array? && n <= |v.elements| == |w.elements|
    requires forall i :: 0 <= i < |v.elements| ==> Canonical(v.elements[i]) == Canonical(w.elements[i])
    ensures Elements(v, n) == Elements(w, n)
    decreases |v.elements| - n
  {
    hide Canonical;
    if n < |v.elements| {
      ElementsAlike(v, w, n + 1);
    }
  }

  lemma {:induction false} ItemsAlike(items: seq<string>, w: Value, n: nat)
    requires w.Array? && n <= |items| == |w.elements|
    requires forall i :: 0 <= i < |items| ==> w.elements[i] == Text(items[i])
    ensures StringItems(items[n..]) == Elements(w, n)
    decreases |items| - n
  {
    hide JsonString;
    if n < |items| {
      ItemsAlike(items, w, n + 1);
      assert items[n..][1..] == items[n + 1..];
    }
  }

  lemma {:induction false} PlainReadsTheSame(v: Value)
    ensures Canonical(Plain(v)) == Canonical(v)
  {
    match v
    case Object(fields) =>
      forall k | k in fields ensures Canonical(Plain(fields[k])) == Canonical(fields[k]) {
        PlainReadsTheSame(fields[k]);
      }
      hide Fields, KeyList;
      assert Plain(v).fields.Keys == fields.Keys;
      FieldsAlike(Plain(v), v, KeyList(fields.Keys));
    case Strings(items) =>
      hide Elements, StringItems;
      assert items[0..] == items;
      ItemsAlike(items, Plain(v), 0);
    case Array(elements) =>
      forall i | 0 <= i < |elements| ensures Canonical(Plain(elements[i])) == Canonical(elements[i]) {
        PlainReadsTheSame(elements[i]);
      }
      hide Elements;
      ElementsAlike(Plain(v), v, 0);
    case _ =>
  }

  // ---- Reading a JSON text, as RFC 8259 has it, without white space.

  function NumberRun(s: string): (n: nat)
    ensures n <= |s|
  {
    if s != "" && NumberChar(s[0]) then 1 + NumberRun(s[1..]) else 0
  }

  predicate StartsWith(s: string, word: string) {
    |word| <= |s| && s[..|word|] == word
  }

  // A value and what follows it.
  function ReadValue(s: string): (o: Option<(Value, string)>)
    ensures o.Some? ==> |o.value.1| < |s|
    decreases |s|, 1
  {
    if s == "" then None
    else if s[0] == '{' then
      if StartsWith(s[1..], "}") then Some((Object(map[]), s[2..])) else ReadFields(s[1..], map[])
    else if s[0] == '[' then
      if StartsWith(s[1..], "]") then Some((Array([]), s[2..])) else ReadElements(s[1..], [])
    else if s[0] == '"' then
      match ReadString(s[1..])
      case Some((text, rest)) => Some((Text(text), rest))
      case None => None
    else if StartsWith(s, "true") then Some((Bool(true), s[4..]))
    else if StartsWith(s, "false") then Some((Bool(false), s[5..]))
    else if StartsWith(s, "null") then Some((Null, s[4..]))
    else
      var n := NumberRun(s);
      if IsNumeral(s[..n]) then Some((Number(s[..n]), s[n..])) else None
  }

  // The fields of an object from a key on, after those already read.
  function ReadFields(s: string, before: map<string, Value>): (o: Option<(Value, string)>)
    ensures o.Some? ==> |o.value.1| < |s|
    decreases |s|, 0
  {
    if s == "" || s[0] != '"' then None
    else
      match ReadString(s[1..])
      case None => None
      case Some((key, s1)) =>
        if !StartsWith(s1, ":") then None
        else
          match ReadValue(s1[1..])
          case None => None
          case Some((v, s2)) =>
            if StartsWith(s2, "}") then Some((Object(before[key := v]), s2[1..]))
            else if StartsWith(s2, ",") then ReadFields(s2[1..], before[key := v])
            else None
  }

  function ReadElements(s: string, before: seq<Value>): (o: Option<(Value, string)>)
    ensures o.Some? ==> |o.value.1| < |s|
    decreases |s|, 2
  {
    match ReadValue(s)
    case None => None
    case Some((v, s1)) =>
      if StartsWith(s1, "]") then Some((Array(before + [v]), s1[1..]))
      else if StartsWith(s1, ",") then ReadElements(s1[1..], before + [v])
      else None
  }

  // No number goes on here.
  predicate NumberEnds(rest: string) {
    rest != "" ==> !NumberChar(rest[0])
  }

  lemma {:induction false} NumberRuns(a: string, rest: string)
    requires (forall i :: 0 <= i < |a| ==> NumberChar(a[i])) && NumberEnds(rest)
    ensures NumberRun(a + rest) == |a|
  {
    if a == "" {
      NothingAdded(rest);
    } else {
      NumberRuns(a[1..], rest);
      assert (a + rest)[1..] == a[1..] + rest;
    }
  }

  lemma NumberReads(a: Numeral, rest: string)
    requires NumberEnds(rest)
    ensures ReadValue(a + rest) == Some((Number(a), rest))
  {
    var s := a + rest;
    NumberRuns(a, rest);
    assert s[..|a|] == a && s[|a|..] == rest && s[0] == a[0];
    assert !StartsWith(s, "true") && !StartsWith(s, "false") && !StartsWith(s, "null") by {
      assert "true"[0] == 't' && "false"[0] == 'f' && "null"[0] == 'n';
      assert forall word :: StartsWith(s, word) && word != "" ==> s[..|word|][0] == word[0];
    }
    hide NumberRun;
  }

  // Read behind anything a number does not run on into, the value comes back and the rest is left.
  ghost predicate Reads(v: Value) {
    forall rest {:trigger NumberEnds(rest)} ::
      NumberEnds(rest) ==> ReadValue(Canonical(v) + rest) == Some((Plain(v), rest))
  }

  lemma WordReads(v: Value, rest: string)
    requires v.Bool? || v.Null?
    ensures ReadValue(Canonical(v) + rest) == Some((v, rest))
  {
    var s := Canonical(v) + rest;
    assert s[..|Canonical(v)|] == Canonical(v) && s[|Canonical(v)|..] == rest;
    if v.Bool? && !v.b {
      assert s[0] == 'f' && !StartsWith(s, "true");
    } else if v.Null? {
      assert s[0] == 'n' && !StartsWith(s, "true") && !StartsWith(s, "false");
    }
    hide NumberRun, ReadFields, ReadElements, ReadString;
  }

  lemma TextReads(text: string, rest: string)
    ensures ReadValue(JsonString(text) + rest) == Some((Text(text), rest))
  {
    StringReads(text, rest);
    hide JsonString, ReadString;
  }

  // What a plain object holds under some of its keys, added to what was read before.
  ghost function WithFields(before: map<string, Value>, v: Value, keys: seq<string>): map<string, Value>
    requires v.Object? && forall k :: k in keys ==> k in v.fields
    decreases |keys|
  {
    if keys == [] then before else WithFields(before[keys[0] := Plain(v.fields[keys[0]])], v, keys[1..])
  }

  // What follows the first of some fields.
  ghost function FieldsAfter(v: Value, keys: seq<string>): string
    requires v.Object? && keys != [] && forall k :: k in keys ==> k in v.fields
  {
    if |keys| == 1 then "" else "," + Fields(v, keys[1..])
  }

  lemma FieldWithRest(key: string, value: string, after: string, rest: string)
    ensures key + ":" + value + after + rest == key + (":" + (value + (after + rest)))
  {
  }

  lemma FieldsSplit(v: Value, keys: seq<string>, rest: string)
    requires v.Object? && keys != [] && forall k :: k in keys ==> k in v.fields
    ensures Fields(v, keys) + rest
        == JsonString(keys[0]) + (":" + (Canonical(v.fields[keys[0]]) + (FieldsAfter(v, keys) + rest)))
  {
    var key, value := JsonString(keys[0]), Canonical(v.fields[keys[0]]);
    hide JsonString, Canonical;
    assert Fields(v, keys) == key + ":" + value + FieldsAfter(v, keys) by {
      if |keys| == 1 {
        NothingAdded(key + ":" + value);
      } else {
        Assoc(key + ":" + value, ",", Fields(v, keys[1..]));
      }
    }
    hide Fields, FieldsAfter;
    FieldWithRest(key, value, FieldsAfter(v, keys), rest);
  }

  lemma OneFieldReads(key: string, value: string, rest: string, v: Value, before: map<string, Value>)
    requires ReadValue(value + rest) == Some((v, rest)) && rest != ""
    ensures var s := JsonString(key) + (":" + (value + rest));
      ReadFields(s, before)
        == if rest[0] == '}' then Some((Object(before[key := v]), rest[1..]))
           else if rest[0] == ',' then ReadFields(rest[1..], before[key := v])
           else None
  {
    var s := JsonString(key) + (":" + (value + rest));
    var s1 := ":" + (value + rest);
    StringReads(key, s1);
    assert s1[1..] == value + rest && StartsWith(s1, ":");
    assert StartsWith(rest, "}") <==> rest[0] == '}';
    assert StartsWith(rest, ",") <==> rest[0] == ',';
    hide JsonString, ReadString, ReadValue, StartsWith;
  }

  lemma FirstOf(c: char, x: string, y: string)
    ensures [c] + x + y == [c] + (x + y)
    ensures ([c] + x + y)[0] == c && ([c] + x + y)[1..] == x + y
  {
    HeadAndTail(c, x + y);
  }

  lemma AfterAField(v: Value, keys: seq<string>, rest: string)
    requires v.Object? && keys != [] && forall k :: k in keys ==> k in v.fields
    ensures var next := FieldsAfter(v, keys) + ("}" + rest);
      && next != "" && next[0] == (if |keys| == 1 then '}' else ',') && NumberEnds(next)
      && next[1..] == if |keys| == 1 then rest else Fields(v, keys[1..]) + ("}" + rest)
  {
    hide Fields;
    assert !NumberChar('}') && !NumberChar(',');
    if |keys| == 1 {
      HeadAndTail('}', rest);
      NothingAdded("}" + rest);
    } else {
      FirstOf(',', Fields(v, keys[1..]), "}" + rest);
    }
  }

  lemma FirstFieldReads(v: Value, keys: seq<string>, rest: string, before: map<string, Value>)
    requires v.Object? && keys != [] && (forall k :: k in keys ==> k in v.fields) && Reads(v.fields[keys[0]])
    ensures var before' := before[keys[0] := Plain(v.fields[keys[0]])];
      ReadFields(Fields(v, keys) + ("}" + rest), before)
        == if |keys| == 1 then Some((Object(before'), rest))
           else ReadFields(Fields(v, keys[1..]) + ("}" + rest), before')
  {
    var key, next := keys[0], FieldsAfter(v, keys) + ("}" + rest);
    FieldsSplit(v, keys, "}" + rest);
    AfterAField(v, keys, rest);
    hide Canonical, JsonString, ReadValue, Plain, NumberEnds, Fields, FieldsAfter, ReadFields;
    assert NumberEnds(next);
    OneFieldReads(key, Canonical(v.fields[key]), next, Plain(v.fields[key]), before);
  }

  lemma {:induction false} FieldsRead(v: Value, keys: seq<string>, rest: string, before: map<string, Value>)
    requires v.Object? && keys != [] && forall k :: k in keys ==> k in v.fields
    requires forall k :: k in keys ==> Reads(v.fields[k])
    ensures ReadFields(Fields(v, keys) + ("}" + rest), before) == Some((Object(WithFields(before, v, keys)), rest))
    decreases |keys|
  {
    hide Canonical, ReadValue, Plain, Fields, ReadFields, Reads;
    FirstFieldReads(v, keys, rest, before);
    if |keys| == 1 {
      assert keys[1..] == [];
    } else {
      FieldsRead(v, keys[1..], rest, before[keys[0] := Plain(v.fields[keys[0]])]);
    }
  }

  lemma {:induction false} WithFieldsHolds(before: map<string, Value>, v: Value, keys: seq<string>)
    requires v.Object? && forall k :: k in keys ==> k in v.fields
    ensures forall k :: k in WithFields(before, v, keys) <==> k in before || k in keys
    ensures forall k :: k in keys ==> WithFields(before, v, keys)[k] == Plain(v.fields[k])
    ensures forall k :: k in before && k !in keys ==> WithFields(before, v, keys)[k] == before[k]
    decreases |keys|
  {
    hide Plain;
    if keys != [] {
      WithFieldsHolds(before[keys[0] := Plain(v.fields[keys[0]])], v, keys[1..]);
      SplitHead(keys);
      assert forall k :: k in keys <==> k == keys[0] || k in keys[1..];
    }
  }

  lemma ObjectOpens(s: string)
    requires s != "" && s[0] == '{'
    ensures ReadValue(s)
         == if StartsWith(s[1..], "}") then Some((Object(map[]), s[2..])) else ReadFields(s[1..], map[])
  {
    hide ReadFields;
  }

  lemma ArrayOpens(s: string)
    requires s != "" && s[0] == '['
    ensures ReadValue(s)
         == if StartsWith(s[1..], "]") then Some((Array([]), s[2..])) else ReadElements(s[1..], [])
  {
    hide ReadElements;
  }

  // A text in brackets and what follows it.
  lemma Bracketed(open: char, inner: string, close: char, rest: string)
    ensures var s := [open] + inner + [close] + rest;
      && s != "" && s[0] == open && s[1..] == inner + ([close] + rest)
      && (inner == "" ==> s[2..] == rest && StartsWith(s[1..], [close]))
      && (inner != "" && inner[0] != close ==> !StartsWith(s[1..], [close]))
  {
    var t := inner + ([close] + rest);
    assert t[..1] == [t[0]];
  }

  lemma EmptyObjectReads(v: Value, rest: string)
    requires v == Object(map[])
    ensures ReadValue(Canonical(v) + rest) == Some((Plain(v), rest))
  {
    HasMemberOf(v.fields);
    assert Fields(v, KeyList(v.fields.Keys)) == "";
    assert Canonical(v) == ['{'] + "" + ['}'];
    assert Plain(v).fields == map[];
    hide *;
    Bracketed('{', "", '}', rest);
    ObjectOpens(Canonical(v) + rest);
  }

  lemma AllFields(v: Value, keys: seq<string>)
    requires v.Object? && forall k :: k in keys <==> k in v.fields
    ensures Object(WithFields(map[], v, keys)) == Plain(v)
  {
    WithFieldsHolds(map[], v, keys);
    assert WithFields(map[], v, keys) == Plain(v).fields;
  }

  lemma FullObjectReads(v: Value, keys: seq<string>, rest: string)
    requires v.Object? && keys != [] && forall k :: k in keys <==> k in v.fields
    requires forall k :: k in v.fields ==> Reads(v.fields[k])
    ensures ReadValue(['{'] + Fields(v, keys) + ['}'] + rest) == Some((Plain(v), rest))
  {
    FieldsOpen(v, keys);
    AllFields(v, keys);
    hide *;
    FieldsRead(v, keys, rest, map[]);
    Bracketed('{', Fields(v, keys), '}', rest);
    ObjectOpens(['{'] + Fields(v, keys) + ['}'] + rest);
  }

  lemma ObjectReads(v: Value, rest: string)
    requires v.Object? && forall k :: k in v.fields ==> Reads(v.fields[k])
    ensures ReadValue(Canonical(v) + rest) == Some((Plain(v), rest))
  {
    HasMemberOf(v.fields);
    if v.fields == map[] {
      EmptyObjectReads(v, rest);
    } else {
      var keys := KeyList(v.fields.Keys);
      assert forall k :: k in keys <==> k in v.fields;
      assert Canonical(v) == ['{'] + Fields(v, keys) + ['}'];
      hide *;
      FullObjectReads(v, keys, rest);
    }
  }

  lemma HasMemberOf(m: map<string, Value>)
    ensures KeyList(m.Keys) == [] <==> m == map[]
  {
    var keys := KeyList(m.Keys);
    if keys == [] {
      assert forall k :: k in m ==> k in keys;
    } else {
      assert keys[0] in m;
    }
  }

  lemma FieldsOpen(v: Value, keys: seq<string>)
    requires v.Object? && keys != [] && forall k :: k in keys ==> k in v.fields
    ensures Fields(v, keys) != "" && Fields(v, keys)[0] == '"'
  {
    hide Canonical, Escapes;
  }

  ghost function ElementsAfter(v: Value, n: nat): string
    requires v.Array? && n < |v.elements|
  {
    if n + 1 == |v.elements| then "" else "," + Elements(v, n + 1)
  }

  lemma ElementsSplit(v: Value, n: nat, rest: string)
    requires v.Array? && n < |v.elements|
    ensures Elements(v, n) + rest == Canonical(v.elements[n]) + (ElementsAfter(v, n) + rest)
  {
    hide Canonical;
  }

  lemma AfterAnElement(v: Value, n: nat, rest: string)
    requires v.Array? && n < |v.elements|
    ensures var next := ElementsAfter(v, n) + ("]" + rest);
      && next != "" && next[0] == (if n + 1 == |v.elements| then ']' else ',') && NumberEnds(next)
      && next[1..] == if n + 1 == |v.elements| then rest else Elements(v, n + 1) + ("]" + rest)
  {
    hide Elements;
    assert !NumberChar(']') && !NumberChar(',');
    if n + 1 == |v.elements| {
      HeadAndTail(']', rest);
      NothingAdded("]" + rest);
    } else {
      FirstOf(',', Elements(v, n + 1), "]" + rest);
    }
  }

  lemma OneElementReads(value: string, rest: string, v: Value, before: seq<Value>)
    requires ReadValue(value + rest) == Some((v, rest)) && rest != ""
    ensures ReadElements(value + rest, before)
         == if rest[0] == ']' then Some((Array(before + [v]), rest[1..]))
            else if rest[0] == ',' then ReadElements(rest[1..], before + [v])
            else None
  {
    assert StartsWith(rest, "]") <==> rest[0] == ']';
    assert StartsWith(rest, ",") <==> rest[0] == ',';
    hide ReadValue, StartsWith;
  }

  lemma FirstElementReads(v: Value, n: nat, rest: string, before: seq<Value>)
    requires v.Array? && n < |v.elements| && Reads(v.elements[n])
    ensures var before' := before + [Plain(v.elements[n])];
      ReadElements(Elements(v, n) + ("]" + rest), before)
        == if n + 1 == |v.elements| then Some((Array(before'), rest))
           else ReadElements(Elements(v, n + 1) + ("]" + rest), before')
  {
    var next := ElementsAfter(v, n) + ("]" + rest);
    ElementsSplit(v, n, "]" + rest);
    AfterAnElement(v, n, rest);
    hide Canonical, ReadValue, Plain, NumberEnds, Elements, ElementsAfter, ReadElements;
    assert NumberEnds(next);
    OneElementReads(Canonical(v.elements[n]), next, Plain(v.elements[n]), before);
  }

  lemma {:induction false} ElementsRead(v: Value, n: nat, rest: string)
    requires v.Array? && n < |v.elements| && forall i :: 0 <= i < |v.elements| ==> Reads(v.elements[i])
    ensures ReadElements(Elements(v, n) + ("]" + rest), Plain(v).elements[..n]) == Some((Plain(v), rest))
    decreases |v.elements| - n
  {
    var plain := Plain(v).elements;
    assert plain[..n] + [Plain(v.elements[n])] == plain[..n + 1] && plain[..|plain|] == plain;
    hide Canonical, ReadValue, Elements, ReadElements, Reads, Plain;
    FirstElementReads(v, n, rest, plain[..n]);
    if n + 1 < |v.elements| {
      ElementsRead(v, n + 1, rest);
    }
  }

  lemma {:induction false} OpensUnlikeAnEnd(v: Value)
    ensures Canonical(v) != "" && Canonical(v)[0] != ']'
  {
    hide Fields, Elements, StringItems, Escapes;
  }

  lemma ElementsOpen(v: Value)
    requires v.Array? && v.elements != []
    ensures Elements(v, 0) != "" && Elements(v, 0)[0] != ']'
  {
    OpensUnlikeAnEnd(v.elements[0]);
    hide Canonical;
  }

  lemma ArrayReads(v: Value, rest: string)
    requires v.Array? && forall i :: 0 <= i < |v.elements| ==> Reads(v.elements[i])
    ensures ReadValue(Canonical(v) + rest) == Some((Plain(v), rest))
  {
    var s := Canonical(v) + rest;
    assert Canonical(v) == ['['] + Elements(v, 0) + [']'];
    if v.elements == [] {
      assert Elements(v, 0) == "" && Plain(v) == Array([]);
      hide Reads, Elements, ReadValue, ReadElements, StartsWith, Canonical;
      Bracketed('[', "", ']', rest);
      ArrayOpens(s);
    } else {
      ElementsOpen(v);
      ElementsRead(v, 0, rest);
      assert Plain(v).elements[..0] == [];
      hide Reads, Elements, ReadValue, ReadElements, StartsWith, Canonical, Plain;
      Bracketed('[', Elements(v, 0), ']', rest);
      ArrayOpens(s);
    }
  }

  lemma StringsRead(v: Value, rest: string)
    requires v.Strings?
    ensures ReadValue(Canonical(v) + rest) == Some((Plain(v), rest))
  {
    PlainReadsTheSame(v);
    var w := Plain(v);
    forall i | 0 <= i < |w.elements| ensures Reads(w.elements[i]) && Plain(w.elements[i]) == w.elements[i] {
      forall rest' | NumberEnds(rest')
        ensures ReadValue(Canonical(w.elements[i]) + rest') == Some((Plain(w.elements[i]), rest'))
      {
        TextReads(w.elements[i].text, rest');
      }
    }
    assert Plain(w).elements == w.elements;
    hide Canonical, ReadValue, Reads;
    ArrayReads(w, rest);
  }

  lemma {:induction false} EveryValueReads(v: Value)
    ensures Reads(v)
    decreases v
  {
    hide ReadValue, Canonical, Plain, Reads;
    if v.Object? {
      forall k | k in v.fields ensures Reads(v.fields[k]) {
        EveryValueReads(v.fields[k]);
      }
    }
    if v.Array? {
      forall i | 0 <= i < |v.elements| ensures Reads(v.elements[i]) {
        EveryValueReads(v.elements[i]);
      }
    }
    forall rest | NumberEnds(rest) ensures ReadValue(Canonical(v) + rest) == Some((Plain(v), rest)) {
      match v
      case Object(_) => ObjectReads(v, rest);
      case Array(_) => ArrayReads(v, rest);
      case Strings(_) => StringsRead(v, rest);
      case _ => AtomReads(v, rest);
    }
    AllReads(v);
  }

  lemma AtomReads(v: Value, rest: string)
    requires NumberEnds(rest) && (v.Text? || v.Number? || v.Bool? || v.Null?)
    ensures ReadValue(Canonical(v) + rest) == Some((Plain(v), rest))
  {
    hide ReadValue, JsonString;
    match v
    case Text(text) => TextReads(text, rest);
    case Number(literal) => NumberReads(literal, rest);
    case _ => WordReads(v, rest);
  }

  lemma AllReads(v: Value)
    requires forall rest {:trigger NumberEnds(rest)} ::
      NumberEnds(rest) ==> ReadValue(Canonical(v) + rest) == Some((Plain(v), rest))
    ensures Reads(v)
  {
    hide ReadValue, Canonical, Plain;
  }

  // What is written is JSON, and reading it gives the value back, with lists as lists of values: the
  // encoding loses nothing, and any reader of JSON finds where it ends.
  lemma ValueReads(v: Value, rest: string)
    requires NumberEnds(rest)
    ensures ReadValue(Canonical(v) + rest) == Some((Plain(v), rest))
  {
    hide ReadValue, Canonical, Plain;
    EveryValueReads(v);
  }

  // Two values have the same encoding exactly when they are the same JSON value.
  lemma CanonicalIsInjective(v: Value, w: Value)
    ensures Canonical(v) == Canonical(w) <==> Plain(v) == Plain(w)
  {
    hide Canonical, Plain, ReadValue;
    PlainReadsTheSame(v);
    PlainReadsTheSame(w);
    ValueReads(v, "");
    ValueReads(w, "");
  }

  // ---- What the encoding never holds.

  // No control character, nothing that means something in HTML, and neither of the two line separators
  // that scripts take for line ends.
  predicate Inert(s: string) {
    forall k :: 0 <= k < |s| ==>
      ' ' <= s[k] && s[k] != '<' && s[k] != '>' && s[k] != '&' && s[k] != '\U{2028}' && s[k] != '\U{2029}'
  }

  lemma InertTogether(a: string, b: string)
    requires Inert(a) && Inert(b)
    ensures Inert(a + b)
  {
  }

  lemma {:induction false} HexIsInert(n: nat, digits: nat)
    ensures Inert(Hex(n, digits))
  {
    if digits > 0 {
      HexIsInert(n / 16, digits - 1);
    }
  }

  lemma EscapeIsInert(c: char)
    ensures Inert(Escape(c))
  {
    HexIsInert(c as int, 4);
    hide Hex;
    if NeedsCode(c) {
      InertTogether("\\u", Hex(c as int, 4));
    }
  }

  lemma {:induction false} StringIsInert(s: string)
    ensures Inert(Escapes(s)) && Inert(JsonString(s))
  {
    if s != "" {
      StringIsInert(s[1..]);
      EscapeIsInert(s[0]);
      hide Escape;
      InertTogether(Escape(s[0]), Escapes(s[1..]));
    }
    hide Escape, Escapes;
  }

  lemma {:induction false} ItemsAreInert(items: seq<string>)
    ensures Inert(StringItems(items))
  {
    if items != [] {
      StringIsInert(items[0]);
      ItemsAreInert(items[1..]);
      hide JsonString;
      InertTogether(JsonString(items[0]), ",");
      InertTogether(JsonString(items[0]) + ",", StringItems(items[1..]));
    }
  }

  lemma {:induction false} FieldsAreInert(v: Value, keys: seq<string>)
    requires v.Object? && forall k :: k in keys ==> k in v.fields
    requires forall k :: k in keys ==> Inert(Canonical(v.fields[k]))
    ensures Inert(Fields(v, keys))
  {
    if keys != [] {
      var key, value := JsonString(keys[0]), Canonical(v.fields[keys[0]]);
      assert keys[0] in keys && forall k :: k in keys[1..] ==> k in keys;
      StringIsInert(keys[0]);
      FieldsAreInert(v, keys[1..]);
      hide JsonString, Canonical;
      InertTogether(key, ":");
      InertTogether(key + ":", value);
      InertTogether(key + ":" + value, ",");
      hide Inert;
      if |keys| > 1 {
        InertTogether(key + ":" + value + ",", Fields(v, keys[1..]));
      }
    }
  }

  lemma {:induction false} ElementsAreInert(v: Value, n: nat)
    requires v.Array? && n <= |v.elements|
    requires forall i :: 0 <= i < |v.elements| ==> Inert(Canonical(v.elements[i]))
    ensures Inert(Elements(v, n))
    decreases |v.elements| - n
  {
    hide Canonical;
    if n < |v.elements| {
      ElementsAreInert(v, n + 1);
      InertTogether(Canonical(v.elements[n]), ",");
      hide Inert;
      if n + 1 < |v.elements| {
        InertTogether(Canonical(v.elements[n]) + ",", Elements(v, n + 1));
      }
    }
  }

  lemma EnclosedIsInert(open: char, inner: string, close: char)
    requires Inert([open]) && Inert(inner) && Inert([close])
    ensures Inert([open] + inner + [close])
  {
    InertTogether([open], inner);
    InertTogether([open] + inner, [close]);
  }

  // Whatever the value holds, its encoding can stand in a page or a log line.
  lemma {:induction false} CanonicalIsInert(v: Value)
    ensures Inert(Canonical(v))
    decreases v
  {
    hide Fields, Elements, StringItems, JsonString, KeyList;
    match v
    case Object(fields) =>
      forall k | k in fields ensures Inert(Canonical(fields[k])) {
        CanonicalIsInert(fields[k]);
      }
      FieldsAreInert(v, KeyList(fields.Keys));
      EnclosedIsInert('{', Fields(v, KeyList(fields.Keys)), '}');
    case Strings(items) =>
      ItemsAreInert(items);
      EnclosedIsInert('[', StringItems(items), ']');
    case Array(elements) =>
      forall i | 0 <= i < |elements| ensures Inert(Canonical(elements[i])) {
        CanonicalIsInert(elements[i]);
      }
      ElementsAreInert(v, 0);
      EnclosedIsInert('[', Elements(v, 0), ']');
    case Text(text) => StringIsInert(text);
    case _ =>
  }
}
