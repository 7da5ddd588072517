/**
 Masking of log records, taken as finite trees of own enumerable fields. A record's fields keep
 their order. Assigning the key "__proto__" sets a prototype instead of an own field, so a field
 of that name does not appear in the masked record.
 */
module LogMasking {

  datatype LogValue =
    | Null
    | Flag(flag: bool)
    | Number(number: real)
    | Text(text: string)
    | Other(description: string)
    | List(items: seq<LogValue>)
    | Record(fields: seq<Field>)

  datatype Field = Field(key: string, value: LogValue)

  const REDACTED: LogValue := Text("[REDACTED]")

  const SENSITIVE_KEYS: set<string> := {
    "password", "passwordhash", "token", "refreshtoken", "accesstoken", "jwt",
    "authorization", "cookie", "set-cookie", "smtppassword", "jwtprivatekey", "secret"
  }

  const KELVIN_SIGN: char := '\U{212A}'

  /** Lower case, exact for every character whose lower case is one ASCII character. */
  function LowerChar(c: char): char {
    if 'A' <= c <= 'Z' then c - 'A' + 'a'
    else if c == KELVIN_SIGN then 'k'
    else c
  }

  function Lower(s: string): string {
    seq(|s|, i requires 0 <= i < |s| => LowerChar(s[i]))
  }

  predicate Sensitive(key: string) {
    Lower(key) in SENSITIVE_KEYS
  }

  predicate Lost(key: string) {
    key == "__proto__"
  }

  // ---------------------------------------------------------------------------------------
  // The transformation

  function Mask(v: LogValue): LogValue
    decreases v
  {
    match v
    case List(items) => List(MaskItems(items))
    case Record(fields) => Record(MaskFields(fields))
    case _ => v
  }

  function MaskItems(items: seq<LogValue>): (masked: seq<LogValue>)
    ensures |masked| == |items|
    decreases items
  {
    if items == [] then [] else [Mask(items[0])] + MaskItems(items[1..])
  }

  function MaskField(f: Field): Field
    decreases f
  {
    if Sensitive(f.key) then Field(f.key, REDACTED) else Field(f.key, Mask(f.value))
  }

  function MaskFields(fields: seq<Field>): seq<Field>
    decreases fields
  {
    if fields == [] then []
    else if Lost(fields[0].key) then MaskFields(fields[1..])
    else [MaskField(fields[0])] + MaskFields(fields[1..])
  }

  method MaskSensitiveData(v: LogValue) returns (masked: LogValue)
    ensures masked == Mask(v)
    decreases v
  {
    match v {
      case List(items) =>
        var maskedItems := [];
        for i := 0 to |items|
          invariant maskedItems + MaskItems(items[i..]) == MaskItems(items)
        {
          assert items[i..][1..] == items[i + 1..];
          var item := MaskSensitiveData(items[i]);
          maskedItems := maskedItems + [item];
        }
        assert items[|items|..] == [];
        masked := List(maskedItems);
      case Record(fields) =>
        var maskedObj := [];
        for i := 0 to |fields|
          invariant maskedObj + MaskFields(fields[i..]) == MaskFields(fields)
        {
          assert fields[i..][1..] == fields[i + 1..];
          var key := fields[i].key;
          if Sensitive(key) {
            maskedObj := maskedObj + [Field(key, REDACTED)];
          } else {
            var value := MaskSensitiveData(fields[i].value);
            if !Lost(key) {
              maskedObj := maskedObj + [Field(key, value)];
            }
          }
        }
        assert fields[|fields|..] == [];
        masked := Record(maskedObj);
      case _ =>
        masked := v;
    }
  }

  // ---------------------------------------------------------------------------------------
  // Which keys are hidden, by name

  /** The character is this letter in either case; the Kelvin sign is a capital k. */
  ghost predicate IsLetter(c: char, letter: char) {
    || c == letter
    || ('a' <= letter <= 'z' && c == letter - 'a' + 'A')
    || (letter == 'k' && c == '\U{212A}')
  }

  ghost predicate Spells(key: string, name: string) {
    |key| == |name| && forall i :: 0 <= i < |name| ==> IsLetter(key[i], name[i])
  }

  /** One of the twelve names, in any case. */
  ghost predicate Hidden(key: string) {
    || Spells(key, "password") || Spells(key, "passwordhash") || Spells(key, "token")
    || Spells(key, "refreshtoken") || Spells(key, "accesstoken") || Spells(key, "jwt")
    || Spells(key, "authorization") || Spells(key, "cookie") || Spells(key, "set-cookie")
    || Spells(key, "smtppassword") || Spells(key, "jwtprivatekey") || Spells(key, "secret")
  }

  /** Of lower-case letters and hyphens. */
  predicate IsPlainName(name: string) {
    forall i :: 0 <= i < |name| ==> 'a' <= name[i] <= 'z' || name[i] == '-'
  }

  lemma {:induction false} LowerSpells(key: string, name: string)
    requires IsPlainName(name)
    ensures Lower(key) == name <==> Spells(key, name)
  {
    if Lower(key) == name {
      forall i | 0 <= i < |name|
        ensures IsLetter(key[i], name[i])
      {
        assert name[i] == LowerChar(key[i]);
      }
    }
    if Spells(key, name) {
      assert forall i :: 0 <= i < |name| ==> IsLetter(key[i], name[i]) && LowerChar(key[i]) == name[i];
    }
  }

  lemma {:induction false} SensitiveNames(name: string)
    ensures name in SENSITIVE_KEYS <==>
            || name == "password" || name == "passwordhash" || name == "token"
            || name == "refreshtoken" || name == "accesstoken" || name == "jwt"
            || name == "authorization" || name == "cookie" || name == "set-cookie"
            || name == "smtppassword" || name == "jwtprivatekey" || name == "secret"
  {
  }

  lemma {:induction false} SensitiveIsHidden(key: string)
    ensures Sensitive(key) <==> Hidden(key)
  {
    SensitiveNames(Lower(key));
    LowerSpells(key, "password");
    LowerSpells(key, "passwordhash");
    LowerSpells(key, "token");
    LowerSpells(key, "refreshtoken");
    LowerSpells(key, "accesstoken");
    LowerSpells(key, "jwt");
    LowerSpells(key, "authorization");
    LowerSpells(key, "cookie");
    LowerSpells(key, "set-cookie");
    LowerSpells(key, "smtppassword");
    LowerSpells(key, "jwtprivatekey");
    LowerSpells(key, "secret");
  }

  /** What becomes of one field: dropped, redacted, or kept with its value masked. */
  lemma {:induction false} FieldMasked(key: string, v: LogValue)
    ensures Mask(Record([Field(key, v)])) ==
            if key == "__proto__" then Record([])
            else if Hidden(key) then Record([Field(key, Text("[REDACTED]"))])
            else Record([Field(key, Mask(v))])
  {
    SensitiveIsHidden(key);
    var field := Field(key, v);
    assert [field][1..] == [];
    assert MaskFields([field]) == if Lost(key) then [] else [MaskField(field)];
  }

  // ---------------------------------------------------------------------------------------
  // What masking hides, and nothing else

  /** Two trees that differ only beneath sensitive keys and in fields that masking drops. */
  ghost predicate Alike(a: LogValue, b: LogValue)
    decreases a, b
  {
    match (a, b)
    case (List(xs), List(ys)) => |xs| == |ys| && forall i :: 0 <= i < |xs| ==> Alike(xs[i], ys[i])
    case (Record(fs), Record(gs)) => AlikeFields(fs, gs)
    case _ => a == b
  }

  ghost predicate AlikeFields(fs: seq<Field>, gs: seq<Field>)
    decreases fs, gs
  {
    if fs != [] && fs[0].key == "__proto__" then AlikeFields(fs[1..], gs)
    else if gs != [] && gs[0].key == "__proto__" then AlikeFields(fs, gs[1..])
    else if fs == [] || gs == [] then fs == gs
    else
      && fs[0].key == gs[0].key
      && (Hidden(fs[0].key) || Alike(fs[0].value, gs[0].value))
      && AlikeFields(fs[1..], gs[1..])
  }

  /** Two trees mask to the same output exactly when they are alike. */
  lemma {:induction false} MaskSameIffAlike(a: LogValue, b: LogValue)
    ensures Mask(a) == Mask(b) <==> Alike(a, b)
    decreases a, b
  {
    match (a, b)
    case (List(xs), List(ys)) => MaskItemsSame(xs, ys);
    case (Record(fs), Record(gs)) => MaskFieldsSame(fs, gs);
    case _ =>
  }

  lemma {:induction false} MaskItemsSame(xs: seq<LogValue>, ys: seq<LogValue>)
    ensures MaskItems(xs) == MaskItems(ys) <==> |xs| == |ys| && forall i :: 0 <= i < |xs| ==> Alike(xs[i], ys[i])
    decreases xs, ys
  {
    if xs != [] && ys != [] {
      MaskSameIffAlike(xs[0], ys[0]);
      MaskItemsSame(xs[1..], ys[1..]);
      assert MaskItems(xs)[0] == Mask(xs[0]) && MaskItems(xs)[1..] == MaskItems(xs[1..]);
      assert MaskItems(ys)[0] == Mask(ys[0]) && MaskItems(ys)[1..] == MaskItems(ys[1..]);
      assert forall i :: 0 < i < |xs| ==> xs[i] == xs[1..][i - 1];
      assert forall i :: 0 < i < |ys| ==> ys[i] == ys[1..][i - 1];
      if |xs| == |ys| && forall i :: 0 <= i < |xs| ==> Alike(xs[i], ys[i]) {
        assert forall i :: 0 <= i < |xs[1..]| ==> Alike(xs[1..][i], ys[1..][i]);
      }
    }
  }

  lemma {:induction false} MaskFieldsSame(fs: seq<Field>, gs: seq<Field>)
    ensures MaskFields(fs) == MaskFields(gs) <==> AlikeFields(fs, gs)
    decreases fs, gs
  {
    if fs != [] && Lost(fs[0].key) {
      MaskFieldsSame(fs[1..], gs);
    } else if gs != [] && Lost(gs[0].key) {
      MaskFieldsSame(fs, gs[1..]);
    } else if fs != [] && gs != [] {
      SensitiveIsHidden(fs[0].key);
      MaskSameIffAlike(fs[0].value, gs[0].value);
      MaskFieldsSame(fs[1..], gs[1..]);
      assert MaskFields(fs)[0] == MaskField(fs[0]) && MaskFields(fs)[1..] == MaskFields(fs[1..]);
      assert MaskFields(gs)[0] == MaskField(gs[0]) && MaskFields(gs)[1..] == MaskFields(gs[1..]);
    }
  }

  // ---------------------------------------------------------------------------------------
  // Fixed points, idempotence and shape

  /** Every sensitive field is already redacted, and there is no field that masking drops. */
  ghost predicate Clean(v: LogValue)
    decreases v
  {
    match v
    case List(items) => forall i :: 0 <= i < |items| ==> Clean(items[i])
    case Record(fields) =>
      forall i :: 0 <= i < |fields| ==>
        && fields[i].key != "__proto__"
        && if Hidden(fields[i].key) then fields[i].value == Text("[REDACTED]") else Clean(fields[i].value)
    case _ => true
  }

  lemma {:induction false} MaskedIsClean(v: LogValue)
    ensures Clean(Mask(v))
    decreases v
  {
    match v
    case List(items) => MaskedItemsClean(items);
    case Record(fields) => MaskedFieldsClean(fields);
    case _ =>
  }

  lemma {:induction false} MaskedItemsClean(items: seq<LogValue>)
    ensures forall i :: 0 <= i < |items| ==> Clean(MaskItems(items)[i])
    decreases items
  {
    if items != [] {
      MaskedIsClean(items[0]);
      MaskedItemsClean(items[1..]);
    }
  }

  lemma {:induction false} MaskedFieldsClean(fields: seq<Field>)
    ensures forall f :: f in MaskFields(fields) ==>
              f.key != "__proto__" && if Hidden(f.key) then f.value == Text("[REDACTED]") else Clean(f.value)
    decreases fields
  {
    if fields != [] {
      SensitiveIsHidden(fields[0].key);
      MaskedIsClean(fields[0].value);
      MaskedFieldsClean(fields[1..]);
    }
  }

  /** Masking leaves a tree as it is exactly when the tree is clean. */
  lemma {:induction false} MaskFixesClean(v: LogValue)
    ensures Clean(v) <==> Mask(v) == v
    decreases v
  {
    MaskedIsClean(v);
    if Clean(v) {
      match v
      case List(items) => MaskFixesItems(items);
      case Record(fields) => MaskFixesFields(fields);
      case _ =>
    }
  }

  lemma {:induction false} MaskFixesItems(items: seq<LogValue>)
    requires forall i :: 0 <= i < |items| ==> Clean(items[i])
    ensures MaskItems(items) == items
    decreases items
  {
    if items != [] {
      MaskFixesClean(items[0]);
      MaskFixesItems(items[1..]);
    }
  }

  lemma {:induction false} MaskFixesFields(fields: seq<Field>)
    requires Clean(Record(fields))
    ensures MaskFields(fields) == fields
    decreases fields
  {
    if fields != [] {
      assert Clean(Record(fields[1..]));
      SensitiveIsHidden(fields[0].key);
      if !Hidden(fields[0].key) {
        MaskFixesClean(fields[0].value);
      }
      MaskFixesFields(fields[1..]);
    }
  }

  /** Masking twice is masking once. */
  lemma {:induction false} MaskIdempotent(v: LogValue)
    ensures Mask(Mask(v)) == Mask(v)
  {
    MaskedIsClean(v);
    MaskFixesClean(Mask(v));
  }

  /** A masked tree has the shape of the original at every depth, up to what masking hides and drops. */
  lemma {:induction false} MaskKeepsShape(v: LogValue)
    ensures Alike(Mask(v), v)
  {
    MaskIdempotent(v);
    MaskSameIffAlike(Mask(v), v);
  }

  function Keys(fields: seq<Field>): (keys: seq<string>)
    ensures |keys| == |fields|
    ensures forall i :: 0 <= i < |keys| ==> keys[i] == fields[i].key
  {
    if fields == [] then [] else [fields[0].key] + Keys(fields[1..])
  }

  function KeptKeys(keys: seq<string>): (kept: seq<string>)
    ensures |kept| <= |keys|
    ensures |kept| == |keys| <==> "__proto__" !in keys
    ensures "__proto__" !in keys ==> kept == keys
  {
    if keys == [] then []
    else
      assert keys == [keys[0]] + keys[1..];
      (if keys[0] == "__proto__" then [] else [keys[0]]) + KeptKeys(keys[1..])
  }

  /**
   A masked record has the record's keys in the same order, without those that masking drops;
   so the keys are all kept exactly when none of them is "__proto__".
   */
  lemma {:induction false} MaskKeepsKeys(fields: seq<Field>)
    ensures Keys(MaskFields(fields)) == KeptKeys(Keys(fields))
    ensures Keys(MaskFields(fields)) == Keys(fields) <==> "__proto__" !in Keys(fields)
    decreases fields
  {
    if fields != [] {
      MaskKeepsKeys(fields[1..]);
      assert Keys(fields)[1..] == Keys(fields[1..]);
      if !Lost(fields[0].key) {
        assert ([MaskField(fields[0])] + MaskFields(fields[1..]))[1..] == MaskFields(fields[1..]);
      }
    }
  }
}
