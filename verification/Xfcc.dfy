/** The X-Forwarded-Client-Cert parser of fleetspeak/src/server/https/client_certificate.go.
    Header bytes are modelled as characters; nothing depends on their encoding.
 */
module Xfcc {
  import opened Options

  datatype State = Key | ValueStart | Value | QuotedValue

  /** The outcome of one call of `Next`: a key, a value and the remaining header. */
  datatype Element = Element(key: string, value: string, rest: string)

  predicate IsSeparator(c: char) {
    c == ';' || c == ','
  }

  /** The escape and quote automaton, from state `st` with `k` and `v` collected so far. `None` is a
      header that ends in the middle of an escape. */
  function Scan(h: string, st: State, k: string, v: string): (r: Option<Element>)
    ensures r.Some? && h != "" ==> |r.value.rest| < |h|
    ensures r.Some? && h == "" ==> r.value.rest == ""
    decreases |h|
  {
    if h == "" then Some(Element(k, v, ""))
    else if st == Key then
      if h[0] == '=' then Scan(h[1..], ValueStart, k, v) else Scan(h[1..], Key, k + [h[0]], v)
    else if st == ValueStart && h[0] == '"' then Scan(h[1..], QuotedValue, k, v)
    else if st == QuotedValue && h[0] == '"' then Scan(h[1..], Value, k, v)
    else if st != QuotedValue && IsSeparator(h[0]) then Some(Element(k, v, h[1..]))
    else
      var st' := if st == QuotedValue then QuotedValue else Value;
      if h[0] != '\\' then Scan(h[1..], st', k, v + [h[0]])
      else if |h| == 1 then None
      else Scan(h[2..], st', k, v + [h[1]])
  }

  /** A dangling escape makes `Next` return empty strings and leave the header alone. */
  function NextElement(h: string): (e: Element)
    ensures e.key != "" ==> |e.rest| < |h|
  {
    match Scan(h, Key, "", "")
    case None => Element("", "", h)
    case Some(e) => e
  }

  /** All the elements that repeated calls of `Next` produce before the first empty key. */
  function Parse(h: string): seq<(string, string)>
    decreases |h|
  {
    var e := NextElement(h);
    if e.key == "" then [] else [(e.key, e.value)] + Parse(e.rest)
  }

  /** The value of the first pair with the given key, or the empty string. */
  function Lookup(field: string, pairs: seq<(string, string)>): string {
    if pairs == [] then ""
    else if pairs[0].0 == field then pairs[0].1
    else Lookup(field, pairs[1..])
  }

  class XfccParser {
    var header: string

    constructor (h: string)
      ensures header == h
    {
      header := h;
    }

    method Next() returns (key: string, value: string)
      modifies this
      ensures Element(key, value, header) == NextElement(old(header))
    {
      key, value := "", "";
      var state := Key;
      var i := 0;
      assert header[0..] == header;
      while i < |header|
        invariant 0 <= i <= |header| && header == old(header)
        invariant Scan(header, Key, "", "") == Scan(header[i..], state, key, value)
        invariant i == 0 ==> key == ""
      {
        ghost var h := header[i..];
        assert h[1..] == header[i + 1..];
        assert |h| > 1 ==> h[2..] == header[i + 2..];
        if state == Key {
          if header[i] == '=' {
            state := ValueStart;
          } else {
            key := key + [header[i]];
          }
          i := i + 1;
          continue;
        }
        if state == ValueStart {
          if header[i] == '"' {
            state := QuotedValue;
            i := i + 1;
            continue;
          }
          state := Value;
        } else if state == QuotedValue && header[i] == '"' {
          state := Value;
          i := i + 1;
          continue;
        }
        if state == Value && (header[i] == ';' || header[i] == ',') {
          break;
        }
        if header[i] == '\\' {
          if |header| == i + 1 {
            key, value := "", "";
            return;
          }
          i := i + 1;
        }
        value := value + [header[i]];
        i := i + 1;
      }
      header := if |header| > i then header[i + 1..] else "";
    }
  }

  /** Terminates on every header: each element that does not end the search shortens it. */
  method ExtractField(field: string, headerCert: string) returns (v: string)
    ensures v == Lookup(field, Parse(headerCert))
  {
    var reader := new XfccParser(headerCert);
    while true
      invariant Lookup(field, Parse(headerCert)) == Lookup(field, Parse(reader.header))
      decreases |reader.header|
    {
      ghost var h := reader.header;
      var key, value := reader.Next();
      if key == "" {
        return "";
      }
      assert Parse(h) == [(key, value)] + Parse(reader.header);
      if key == field {
        return value;
      }
    }
  }

  // ---------------------------------------------------------------- printing

  /** One printed element. `sep` separates it from the next one and is not printed after the last. Characters of
      the value that need not be escaped are escaped all the same where `more` says so. */
  datatype Field = Field(key: string, value: string, quoted: bool, more: seq<bool>, sep: char)

  ghost predicate Printable(f: Field) {
    f.key != "" && '=' !in f.key && IsSeparator(f.sep)
  }

  predicate Special(c: char, quoted: bool) {
    c == '"' || c == '\\' || (!quoted && IsSeparator(c))
  }

  /** Whether the first character is escaped. */
  predicate Escaped(v: string, quoted: bool, more: seq<bool>)
    requires v != ""
  {
    Special(v[0], quoted) || (more != [] && more[0])
  }

  function Rest(more: seq<bool>): seq<bool> {
    if more == [] then [] else more[1..]
  }

  /** Escapes `"` and `\` and, outside quotes, the separators, and whatever else `more` says. */
  function Escape(v: string, quoted: bool, more: seq<bool>): string {
    if v == "" then ""
    else (if Escaped(v, quoted, more) then ['\\', v[0]] else [v[0]]) + Escape(v[1..], quoted, Rest(more))
  }

  function PrintValue(f: Field): string {
    if f.quoted then "\"" + Escape(f.value, true, f.more) + "\"" else Escape(f.value, false, f.more)
  }

  function PrintField(f: Field): string {
    f.key + "=" + PrintValue(f)
  }

  function Print(fs: seq<Field>): string {
    if fs == [] then ""
    else if |fs| == 1 then PrintField(fs[0])
    else PrintField(fs[0]) + [fs[0].sep] + Print(fs[1..])
  }

  function Pairs(fs: seq<Field>): seq<(string, string)> {
    seq(|fs|, i requires 0 <= i < |fs| => (fs[i].key, fs[i].value))
  }

  lemma {:induction false} ScanKey(key: string, h: string, k: string, v: string)
    requires '=' !in key
    ensures Scan(key + "=" + h, Key, k, v) == Scan(h, ValueStart, k + key, v)
  {
    var s := key + "=" + h;
    if key == "" {
      assert s[1..] == h && k + key == k;
    } else {
      assert s[1..] == key[1..] + "=" + h;
      ScanKey(key[1..], h, k + [key[0]], v);
      assert k + [key[0]] + key[1..] == k + key;
    }
  }

  function Head(value: string, quoted: bool, more: seq<bool>): string
    requires value != ""
  {
    if Escaped(value, quoted, more) then ['\\', value[0]] else [value[0]]
  }

  lemma EscapeStep(value: string, quoted: bool, more: seq<bool>, h: string)
    requires value != ""
    ensures Escape(value, quoted, more) + h == Head(value, quoted, more) + (Escape(value[1..], quoted, Rest(more)) + h)
  {
    hide Escaped;
    var a, b := Head(value, quoted, more), Escape(value[1..], quoted, Rest(more));
    assert a + b + h == a + (b + h);
  }

  lemma ScanHead(value: string, more: seq<bool>, t: string, st: State, k: string, v: string)
    requires value != "" && (st == Value || st == QuotedValue)
    ensures Scan(Head(value, st == QuotedValue, more) + t, st, k, v) == Scan(t, st, k, v + [value[0]])
  {
    hide Scan;
    if Escaped(value, st == QuotedValue, more) {
      ScanEscaped(value[0], t, st, k, v);
    } else {
      ScanPlain(value[0], t, st, k, v);
    }
  }

  lemma {:induction false} ScanChars(value: string, more: seq<bool>, h: string, st: State, k: string, v: string)
    requires st == Value || st == QuotedValue
    ensures Scan(Escape(value, st == QuotedValue, more) + h, st, k, v) == Scan(h, st, k, v + value)
    decreases |value|
  {
    hide Scan;
    var quoted := st == QuotedValue;
    OneByOne(v, value);
    if value == "" {
      assert Escape(value, quoted, more) + h == h;
    } else {
      hide Escape, Head;
      EscapeStep(value, quoted, more, h);
      ScanHead(value, more, Escape(value[1..], quoted, Rest(more)) + h, st, k, v);
      ScanChars(value[1..], Rest(more), h, st, k, v + [value[0]]);
    }
  }

  lemma OneByOne(v: string, value: string)
    ensures value == "" ==> v + value == v
    ensures value != "" ==> v + [value[0]] + value[1..] == v + value
  {
  }

  lemma ScanQuoted(value: string, more: seq<bool>, h: string, k: string, v: string)
    ensures Scan(Escape(value, true, more) + "\"" + h, QuotedValue, k, v) == Scan(h, Value, k, v + value)
  {
    hide Escape;
    ScanChars(value, more, "\"" + h, QuotedValue, k, v);
    assert Escape(value, true, more) + "\"" + h == Escape(value, true, more) + ("\"" + h);
    assert ("\"" + h)[1..] == h;
  }

  lemma ScanBare(value: string, more: seq<bool>, h: string, k: string, v: string)
    ensures Scan(Escape(value, false, more) + h, Value, k, v) == Scan(h, Value, k, v + value)
  {
    ScanChars(value, more, h, Value, k, v);
  }

  lemma ScanEscaped(c: char, t: string, st: State, k: string, v: string)
    requires st == Value || st == QuotedValue
    ensures Scan(['\\', c] + t, st, k, v) == Scan(t, st, k, v + [c])
  {
    assert (['\\', c] + t)[2..] == t;
  }

  lemma ScanPlain(c: char, t: string, st: State, k: string, v: string)
    requires (st == Value || st == QuotedValue) && !Special(c, st == QuotedValue)
    ensures Scan([c] + t, st, k, v) == Scan(t, st, k, v + [c])
  {
    assert ([c] + t)[1..] == t;
  }

  lemma QuoteStart(t: string, k: string, v: string)
    ensures Scan("\"" + t, ValueStart, k, v) == Scan(t, QuotedValue, k, v)
  {
    assert ("\"" + t)[1..] == t;
  }

  lemma BareStart(value: string, more: seq<bool>, h: string, k: string, v: string)
    requires h == "" || IsSeparator(h[0])
    ensures Scan(Escape(value, false, more) + h, ValueStart, k, v) == Scan(Escape(value, false, more) + h, Value, k, v)
  {
    var s := Escape(value, false, more) + h;
    assert s == "" || s[0] != '"';
  }

  lemma ScanBody(f: Field, h: string)
    requires h == "" || IsSeparator(h[0])
    ensures Scan(PrintValue(f) + h, ValueStart, f.key, "") == Scan(h, Value, f.key, f.value)
  {
    hide Scan, Escape;
    assert "" + f.value == f.value;
    if f.quoted {
      var t := Escape(f.value, true, f.more) + "\"" + h;
      assert PrintValue(f) + h == "\"" + t;
      QuoteStart(t, f.key, "");
      ScanQuoted(f.value, f.more, h, f.key, "");
    } else {
      BareStart(f.value, f.more, h, f.key, "");
      ScanBare(f.value, f.more, h, f.key, "");
    }
  }

  /** `Next` on a printed element followed by the end of the header or by a separator. */
  lemma NextOfPrinted(f: Field, h: string)
    requires Printable(f) && (h == "" || IsSeparator(h[0]))
    ensures NextElement(PrintField(f) + h)
         == Element(f.key, f.value, if h == "" then "" else h[1..])
  {
    assert PrintField(f) + h == f.key + "=" + (PrintValue(f) + h);
    ScanKey(f.key, PrintValue(f) + h, "", "");
    assert "" + f.key == f.key;
    ScanBody(f, h);
  }

  lemma NextOfEmpty()
    ensures NextElement("") == Element("", "", "")
  {
  }

  /** Parsing undoes printing, whatever the values contain. */
  lemma {:induction false} ParseOfPrint(fs: seq<Field>)
    requires forall f <- fs :: Printable(f)
    ensures Parse(Print(fs)) == Pairs(fs)
  {
    hide Scan, PrintField, Escape;
    if fs == [] {
      assert NextElement("").key == "" by { NextOfEmpty(); }
    } else {
      hide NextElement;
      var tail := if |fs| == 1 then "" else [fs[0].sep] + Print(fs[1..]);
      assert Printable(fs[0]);
      assert Print(fs) == PrintField(fs[0]) + tail;
      NextOfPrinted(fs[0], tail);
      ParseOfPrint(fs[1..]);
      assert Pairs(fs) == [(fs[0].key, fs[0].value)] + Pairs(fs[1..]);
    }
  }

  /** `ExtractField` on a printed header finds the value of the first element with that key. */
  lemma ExtractOfPrint(fs: seq<Field>, field: string)
    requires forall f <- fs :: Printable(f)
    ensures Lookup(field, Parse(Print(fs))) == Lookup(field, Pairs(fs))
  {
    ParseOfPrint(fs);
  }

  lemma {:induction false} LookupAbsent(field: string, pairs: seq<(string, string)>)
    requires forall p <- pairs :: p.0 != field
    ensures Lookup(field, pairs) == ""
  {
    if pairs != [] {
      assert pairs[0] in pairs;
      LookupAbsent(field, pairs[1..]);
    }
  }

  /** What `Lookup` means: the value at the least index with the key. */
  lemma {:induction false} LookupFirst(field: string, pairs: seq<(string, string)>, i: nat)
    requires i < |pairs| && pairs[i].0 == field
    requires forall j :: 0 <= j < i ==> pairs[j].0 != field
    ensures Lookup(field, pairs) == pairs[i].1
  {
    if i > 0 {
      assert pairs[0].0 != field;
      LookupFirst(field, pairs[1..], i - 1);
    }
  }

  // ---------------------------------------------------------------- several certificates

  /** The fields of the first certificate: those up to the first `,`. */
  function FirstCert(fs: seq<Field>): seq<Field> {
    if fs == [] then []
    else if fs[0].sep == ',' then [fs[0]]
    else [fs[0]] + FirstCert(fs[1..])
  }

  /** The fields of the other certificates. */
  function OtherCerts(fs: seq<Field>): seq<Field> {
    if fs == [] then []
    else if fs[0].sep == ',' then fs[1..]
    else OtherCerts(fs[1..])
  }

  predicate HasKey(field: string, fs: seq<Field>) {
    exists i :: 0 <= i < |fs| && fs[i].key == field
  }

  lemma {:induction false} CertsSplit(fs: seq<Field>)
    ensures FirstCert(fs) + OtherCerts(fs) == fs
  {
    if fs != [] && fs[0].sep != ',' {
      CertsSplit(fs[1..]);
      assert [fs[0]] + FirstCert(fs[1..]) + OtherCerts(fs[1..]) == [fs[0]] + (FirstCert(fs[1..]) + OtherCerts(fs[1..]));
    }
  }

  lemma {:induction false} LookupSplit(field: string, a: seq<Field>, b: seq<Field>)
    ensures Lookup(field, Pairs(a + b)) == if HasKey(field, a) then Lookup(field, Pairs(a)) else Lookup(field, Pairs(b))
    ensures !HasKey(field, a) ==> Lookup(field, Pairs(a)) == ""
  {
    if a == [] {
      assert a + b == b;
    } else {
      LookupSplit(field, a[1..], b);
      assert Pairs(a + b) == [(a[0].key, a[0].value)] + Pairs(a[1..] + b);
      assert Pairs(a) == [(a[0].key, a[0].value)] + Pairs(a[1..]);
      assert HasKey(field, a) <==> a[0].key == field || HasKey(field, a[1..]) by {
        assert a == [a[0]] + a[1..];
        if i :| 0 <= i < |a[1..]| && a[1..][i].key == field {
          assert a[i + 1].key == field;
        }
        if i :| 0 <= i < |a| && a[i].key == field && i > 0 {
          assert a[1..][i - 1].key == field;
        }
      }
    }
  }

  /** The result is that of the first certificate exactly when this one has the field, or the others have
      none or an empty one: `;` and `,` are treated alike. */
  lemma FirstCertIff(fs: seq<Field>, field: string)
    requires forall f <- fs :: Printable(f)
    ensures Lookup(field, Parse(Print(fs))) == Lookup(field, Pairs(FirstCert(fs)))
       <==> HasKey(field, FirstCert(fs)) || Lookup(field, Pairs(OtherCerts(fs))) == ""
  {
    hide Parse, Print, Pairs;
    ExtractOfPrint(fs, field);
    CertsSplit(fs);
    LookupSplit(field, FirstCert(fs), OtherCerts(fs));
  }

  /** In `Hash=a,Cert=b` the Cert found is that of the second certificate. */
  lemma SecondCertFound(fs: seq<Field>)
    requires fs == [Field("Hash", "a", false, [], ','), Field("Cert", "b", false, [], ';')]
    ensures Lookup("Cert", Parse(Print(fs))) == "b" && Lookup("Cert", Pairs(FirstCert(fs))) == ""
  {
    hide Parse, Print;
    ExtractOfPrint(fs, "Cert");
    assert Pairs(fs) == [("Hash", "a"), ("Cert", "b")];
    LookupFirst("Cert", Pairs(fs), 1);
    assert FirstCert(fs) == [fs[0]];
    LookupAbsent("Cert", Pairs(FirstCert(fs)));
  }
}
