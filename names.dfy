/** Key renaming: `snake_to_camel` (utils/espo_helpers.py) and the Python
    string primitives it is built from (`str.split`, `str.capitalize`,
    `"".join`). Case mapping is the ASCII one. */
module Names {

  predicate IsLowerLetter(c: char) { 'a' <= c <= 'z' }
  predicate IsUpperLetter(c: char) { 'A' <= c <= 'Z' }
  predicate IsLowerOrDigit(c: char) { IsLowerLetter(c) || '0' <= c <= '9' }

  function Upper(c: char): (u: char)
    ensures IsLowerLetter(c) ==> IsUpperLetter(u)
    ensures !IsLowerLetter(c) ==> u == c
  {
    if IsLowerLetter(c) then (c as int - 32) as char else c
  }

  function Lower(c: char): (l: char)
    ensures IsUpperLetter(c) ==> IsLowerLetter(l)
    ensures !IsUpperLetter(c) ==> l == c
  {
    if IsUpperLetter(c) then (c as int + 32) as char else c
  }

  /** Lowering an upper-cased letter gives the letter back. */
  lemma LowerUpper(c: char)
    requires IsLowerLetter(c)
    ensures Lower(Upper(c)) == c
  {
  }

  function LowerAll(s: string): (r: string)
    ensures |r| == |s|
    ensures forall i :: 0 <= i < |s| ==> r[i] == Lower(s[i])
  {
    if s == [] then [] else [Lower(s[0])] + LowerAll(s[1..])
  }

  /** `w.capitalize()`: first character upper-cased, all others lower-cased. */
  function Capitalize(w: string): (r: string)
    ensures |r| == |w|
  {
    if w == [] then [] else [Upper(w[0])] + LowerAll(w[1..])
  }

  /** `s.split(sep)`: the maximal runs between separators, empty runs included. */
  function Split(s: string, sep: char): (parts: seq<string>)
    ensures |parts| >= 1
    ensures forall p :: p in parts ==> sep !in p
    decreases |s|
  {
    if s == [] then [[]]
    else
      var rest := Split(s[1..], sep);
      if s[0] == sep then [[]] + rest else [[s[0]] + rest[0]] + rest[1..]
  }

  /** `sep.join(parts)`. */
  function Join(parts: seq<string>, sep: char): string
    requires |parts| >= 1
    decreases |parts|
  {
    if |parts| == 1 then parts[0] else parts[0] + [sep] + Join(parts[1..], sep)
  }

  /** Splitting and joining again on the same separator restores the string. */
  lemma {:induction false} JoinSplit(s: string, sep: char)
    ensures Join(Split(s, sep), sep) == s
    decreases |s|
  {
    if s != [] {
      var rest := Split(s[1..], sep);
      JoinSplit(s[1..], sep);
      if s[0] == sep {
        assert Split(s, sep)[1..] == rest;
      } else {
        var parts := Split(s, sep);
        if |rest| == 1 {
          assert parts == [[s[0]] + rest[0]];
        } else {
          assert parts[1..] == rest[1..];
          assert Join(rest, sep) == rest[0] + [sep] + Join(rest[1..], sep);
        }
        assert s == [s[0]] + s[1..];
      }
    }
  }

  /** `"".join(word.capitalize() for word in ws)`. */
  function CapitalizeAll(ws: seq<string>): string
    decreases |ws|
  {
    if ws == [] then [] else Capitalize(ws[0]) + CapitalizeAll(ws[1..])
  }

  /** `snake_to_camel(name)`: the first `_`-separated part unchanged, every
      further part capitalized, all concatenated. */
  function SnakeToCamel(name: string): string {
    var parts := Split(name, '_');
    parts[0] + CapitalizeAll(parts[1..])
  }

  // An independent, character-at-a-time description of the same renaming:
  // characters of the first part are copied, underscores are dropped, the
  // first character after a run of underscores is upper-cased and the
  // characters after it are lower-cased.

  function CamelFirst(s: string): string
    decreases |s|
  {
    if s == [] then []
    else if s[0] == '_' then CamelStart(s[1..])
    else [s[0]] + CamelFirst(s[1..])
  }

  function CamelStart(s: string): string
    decreases |s|
  {
    if s == [] then []
    else if s[0] == '_' then CamelStart(s[1..])
    else [Upper(s[0])] + CamelRest(s[1..])
  }

  function CamelRest(s: string): string
    decreases |s|
  {
    if s == [] then []
    else if s[0] == '_' then CamelStart(s[1..])
    else [Lower(s[0])] + CamelRest(s[1..])
  }

  lemma {:induction false} CamelRestSplit(s: string)
    ensures CamelRest(s) == LowerAll(Split(s, '_')[0]) + CapitalizeAll(Split(s, '_')[1..])
    decreases |s|, 0
  {
    if s != [] {
      var rest := Split(s[1..], '_');
      if s[0] == '_' {
        CamelStartSplit(s[1..]);
        assert Split(s, '_')[1..] == rest;
      } else {
        CamelRestSplit(s[1..]);
        assert Split(s, '_')[1..] == rest[1..];
        assert LowerAll([s[0]] + rest[0]) == [Lower(s[0])] + LowerAll(rest[0]);
      }
    }
  }

  lemma {:induction false} CamelStartSplit(s: string)
    ensures CamelStart(s) == CapitalizeAll(Split(s, '_'))
    decreases |s|, 1
  {
    if s != [] {
      var rest := Split(s[1..], '_');
      if s[0] == '_' {
        CamelStartSplit(s[1..]);
        assert Split(s, '_')[1..] == rest;
      } else {
        CamelRestSplit(s[1..]);
        var parts := Split(s, '_');
        assert parts[1..] == rest[1..];
        assert ([s[0]] + rest[0])[1..] == rest[0];
      }
    }
  }

  lemma {:induction false} CamelFirstSplit(s: string)
    ensures CamelFirst(s) == Split(s, '_')[0] + CapitalizeAll(Split(s, '_')[1..])
    decreases |s|
  {
    if s != [] {
      var rest := Split(s[1..], '_');
      if s[0] == '_' {
        CamelStartSplit(s[1..]);
        assert Split(s, '_')[1..] == rest;
      } else {
        CamelFirstSplit(s[1..]);
        assert Split(s, '_')[1..] == rest[1..];
      }
    }
  }

  /** `snake_to_camel` agrees with the character-at-a-time description on every string. */
  lemma SnakeToCamelCharwise(name: string)
    ensures SnakeToCamel(name) == CamelFirst(name)
  {
    CamelFirstSplit(name);
  }

  /** The renamed key never contains an underscore. */
  lemma {:induction false} CamelHasNoUnderscore(s: string)
    ensures '_' !in CamelFirst(s) && '_' !in CamelStart(s) && '_' !in CamelRest(s)
    decreases |s|
  {
    if s != [] {
      CamelHasNoUnderscore(s[1..]);
    }
  }

  /** A name without underscores is its own camel case (`name` stays `name`). */
  lemma {:induction false} CamelOfPlainWord(s: string)
    requires '_' !in s
    ensures SnakeToCamel(s) == s
    decreases |s|
  {
    SnakeToCamelCharwise(s);
    CamelFirstCopies(s);
  }

  lemma {:induction false} CamelFirstCopies(s: string)
    requires '_' !in s
    ensures CamelFirst(s) == s
    decreases |s|
  {
    if s != [] {
      CamelFirstCopies(s[1..]);
    }
  }

  /** A trailing underscore contributes nothing: `from_` becomes `from`. */
  lemma {:induction false} CamelDropsTrailingUnderscore(s: string)
    ensures SnakeToCamel(s + "_") == SnakeToCamel(s)
  {
    SnakeToCamelCharwise(s + "_");
    SnakeToCamelCharwise(s);
    CamelFirstTrailing(s);
  }

  lemma {:induction false} CamelFirstTrailing(s: string)
    ensures CamelFirst(s + "_") == CamelFirst(s)
    ensures CamelStart(s + "_") == CamelStart(s)
    ensures CamelRest(s + "_") == CamelRest(s)
    decreases |s|
  {
    if s != [] {
      CamelFirstTrailing(s[1..]);
      assert (s + "_")[1..] == s[1..] + "_";
    }
  }

  // Plain snake-case identifiers: lower-case words of letters and digits, each
  // starting with a letter, joined by single underscores. Every argument name
  // of the tools but `from_` has this form, and on such names the renaming
  // can be undone.

  predicate IsPlainSnake(s: string) {
    |s| > 0 && IsLowerLetter(s[0]) && PlainTail(s[1..])
  }

  predicate PlainTail(s: string)
    decreases |s|
  {
    s == []
    || (IsLowerOrDigit(s[0]) && PlainTail(s[1..]))
    || (|s| >= 2 && s[0] == '_' && IsLowerLetter(s[1]) && PlainTail(s[2..]))
  }

  /** Undo the camel casing: an upper-case letter `X` becomes `_x`. */
  function CamelToSnake(t: string): (s: string)
    ensures '_' !in t ==> |s| >= |t|
    decreases |t|
  {
    if t == [] then []
    else if IsUpperLetter(t[0]) then ['_', Lower(t[0])] + CamelToSnake(t[1..])
    else [t[0]] + CamelToSnake(t[1..])
  }

  lemma {:induction false} CamelRestInverse(s: string)
    requires PlainTail(s)
    ensures CamelToSnake(CamelRest(s)) == s
    ensures CamelFirst(s) == CamelRest(s)
    decreases |s|
  {
    if s != [] {
      if s[0] == '_' {
        CamelRestInverse(s[2..]);
        assert s[1..][1..] == s[2..];
        var t := CamelRest(s);
        assert s[1..][0] == s[1] && s[1] != '_';
        assert t == CamelStart(s[1..]);
        assert t == [Upper(s[1])] + CamelRest(s[2..]);
        assert t[1..] == CamelRest(s[2..]);
        LowerUpper(s[1]);
        assert s == ['_', s[1]] + s[2..];
      } else {
        CamelRestInverse(s[1..]);
        var t := CamelRest(s);
        assert t[1..] == CamelRest(s[1..]);
        assert s == [s[0]] + s[1..];
      }
    }
  }

  /** On plain snake-case names the renaming is undone by `CamelToSnake`. */
  lemma SnakeToCamelInverse(s: string)
    requires IsPlainSnake(s)
    ensures CamelToSnake(SnakeToCamel(s)) == s
  {
    SnakeToCamelCharwise(s);
    CamelRestInverse(s[1..]);
    var t := CamelFirst(s);
    assert t[1..] == CamelFirst(s[1..]);
    assert s == [s[0]] + s[1..];
  }

  /** Distinct plain snake-case names never rename to the same key. */
  lemma SnakeToCamelInjective(a: string, b: string)
    requires IsPlainSnake(a) && IsPlainSnake(b) && a != b
    ensures SnakeToCamel(a) != SnakeToCamel(b)
  {
    SnakeToCamelInverse(a);
    SnakeToCamelInverse(b);
  }

  // Facts that pin down the renaming of concrete names cheaply.

  /** The first two characters survive when neither is an underscore. */
  lemma CamelKeepsLead(n: string)
    requires n != [] && n[0] != '_'
    ensures SnakeToCamel(n) != [] && SnakeToCamel(n)[0] == n[0]
    ensures |n| >= 2 && n[1] != '_' ==> |SnakeToCamel(n)| >= 2 && SnakeToCamel(n)[1] == n[1]
  {
    SnakeToCamelCharwise(n);
    if |n| >= 2 && n[1] != '_' {
      assert n[1..][0] == n[1];
    }
  }

  /** A name that already differs from `key` in its first or second
      character, before any underscore, cannot rename to `key`. */
  predicate Distinguished(n: string, key: string) {
    (n != [] && key != [] && n[0] != '_' && n[0] != key[0])
    || (|n| >= 2 && |key| >= 2 && n[0] != '_' && n[1] != '_' && n[1] != key[1])
  }

  lemma DistinguishedRenames(n: string, key: string)
    requires Distinguished(n, key)
    ensures SnakeToCamel(n) != key
  {
    CamelKeepsLead(n);
  }

  lemma {:induction false} CamelFirstWord(w: string, rest: string)
    requires '_' !in w
    ensures CamelFirst(w + "_" + rest) == w + CamelStart(rest)
    decreases |w|
  {
    if w == [] {
      assert w + "_" + rest == ['_'] + rest;
    } else {
      assert (w + "_" + rest)[1..] == w[1..] + "_" + rest;
      CamelFirstWord(w[1..], rest);
    }
  }

  lemma {:induction false} CamelRestWord(w: string)
    requires '_' !in w
    ensures CamelRest(w) == LowerAll(w)
    decreases |w|
  {
    if w != [] {
      CamelRestWord(w[1..]);
    }
  }

  lemma {:induction false} CamelRestThenWord(w: string, rest: string)
    requires '_' !in w
    ensures CamelRest(w + "_" + rest) == LowerAll(w) + CamelStart(rest)
    decreases |w|
  {
    if w == [] {
      assert w + "_" + rest == ['_'] + rest;
    } else {
      assert (w + "_" + rest)[1..] == w[1..] + "_" + rest;
      CamelRestThenWord(w[1..], rest);
    }
  }

  /** A later word of a name is capitalized. */
  lemma {:induction false} CamelStartWord(w: string, rest: string)
    requires '_' !in w && w != []
    ensures CamelStart(w) == Capitalize(w)
    ensures CamelStart(w + "_" + rest) == Capitalize(w) + CamelStart(rest)
  {
    assert w[0] in w;
    assert forall c :: c in w[1..] ==> c in w;
    CamelRestWord(w[1..]);
    assert CamelStart(w) == [Upper(w[0])] + CamelRest(w[1..]);
    var long := w + "_" + rest;
    assert long[0] == w[0] && long[1..] == w[1..] + "_" + rest;
    CamelRestThenWord(w[1..], rest);
    assert CamelStart(long) == [Upper(w[0])] + CamelRest(long[1..]);
  }

  /** `snake_to_camel` on two words: `first_name` becomes `firstName`. */
  lemma {:induction false} CamelOfTwoWords(a: string, b: string)
    requires '_' !in a && '_' !in b && b != []
    ensures SnakeToCamel(a + "_" + b) == a + Capitalize(b)
  {
    SnakeToCamelCharwise(a + "_" + b);
    CamelFirstWord(a, b);
    CamelStartWord(b, "");
  }

  /** `snake_to_camel` on three words: `reply_to_string` becomes `replyToString`. */
  lemma {:induction false} CamelOfThreeWords(a: string, b: string, c: string)
    requires '_' !in a && '_' !in b && '_' !in c && b != [] && c != []
    ensures SnakeToCamel(a + "_" + b + "_" + c) == a + Capitalize(b) + Capitalize(c)
  {
    SnakeToCamelCharwise(a + "_" + b + "_" + c);
    assert a + "_" + b + "_" + c == a + "_" + (b + "_" + c);
    CamelFirstWord(a, b + "_" + c);
    CamelStartWord(b, c);
    CamelStartWord(c, "");
  }

  /** The two-word argument names the tools rely on rename to their
      documented keys. */
  lemma {:induction false} CamelOfToolKey(name: string, key: string)
    requires || (name == "custom_fields" && key == "customFields")
             || (name == "version_number" && key == "versionNumber")
             || (name == "where_group" && key == "whereGroup")
    ensures SnakeToCamel(name) == key
  {
    if name == "custom_fields" {
      CamelOfTwoWordsAs(name, "custom", "fields", "Fields", key);
    } else if name == "version_number" {
      CamelOfTwoWordsAs(name, "version", "number", "Number", key);
    } else {
      CamelOfTwoWordsAs(name, "where", "group", "Group", key);
    }
  }

  // Renamings of other shapes.

  lemma {:induction false} CamelFrom(name: string)
    requires name == "from_"
    ensures SnakeToCamel(name) == "from"
  {
    CamelDropsTrailingUnderscore("from");
    CamelOfPlainWord("from");
    assert "from" + "_" == name;
  }

  lemma {:induction false} CamelReplyToString(name: string)
    requires name == "reply_to_string"
    ensures SnakeToCamel(name) == "replyToString"
  {
    CamelOfThreeWordsAs(name, "reply", "to", "string", "To", "String", "replyToString");
  }

  /** A word of lower-case letters. */
  predicate IsLowerWord(w: string) {
    forall i :: 0 <= i < |w| ==> IsLowerLetter(w[i])
  }

  /** A lower-case word is capitalized by upper-casing its first letter. */
  lemma CapitalizeLowerWord(w: string)
    requires w != [] && IsLowerWord(w)
    ensures Capitalize(w) == [Upper(w[0])] + w[1..]
  {
    assert LowerAll(w[1..]) == w[1..];
  }

  /** `CamelOfTwoWords` with the pieces named: a two-word argument name such as
      `custom_fields` renames to its documented key (`customFields`), and a
      caller passing literals compares them one piece at a time. */
  lemma {:induction false} CamelOfTwoWordsAs(name: string, a: string, b: string, capB: string, camel: string)
    requires '_' !in a && b != [] && IsLowerWord(b)
    requires name == a + "_" + b && capB == [Upper(b[0])] + b[1..] && camel == a + capB
    ensures SnakeToCamel(name) == camel
  {
    assert forall i :: 0 <= i < |b| ==> b[i] != '_';
    CamelOfTwoWords(a, b);
    CapitalizeLowerWord(b);
  }

  lemma {:induction false} CamelOfThreeWordsAs(name: string, a: string, b: string, c: string, capB: string, capC: string, camel: string)
    requires '_' !in a && b != [] && c != [] && IsLowerWord(b) && IsLowerWord(c)
    requires name == a + "_" + b + "_" + c
    requires capB == [Upper(b[0])] + b[1..] && capC == [Upper(c[0])] + c[1..]
    requires camel == a + capB + capC
    ensures SnakeToCamel(name) == camel
  {
    assert forall i :: 0 <= i < |b| ==> b[i] != '_';
    assert forall i :: 0 <= i < |c| ==> c[i] != '_';
    CamelOfThreeWords(a, b, c);
    CapitalizeLowerWord(b);
    CapitalizeLowerWord(c);
  }

  /** A lower-case letter after a non-underscore is copied to the end. */
  lemma {:induction false} CamelSnoc(p: string, c: char)
    requires p != [] && p[|p| - 1] != '_' && IsLowerLetter(c)
    ensures CamelFirst(p + [c]) == CamelFirst(p) + [c]
    ensures CamelStart(p + [c]) == CamelStart(p) + [c]
    ensures CamelRest(p + [c]) == CamelRest(p) + [c]
    decreases |p|
  {
    var t := p + [c];
    assert t[0] == p[0] && t[1..] == p[1..] + [c];
    if |p| == 1 {
      assert t[1..] == [c] && [c][1..] == [] && p[1..] == [];
    } else {
      var q := p[1..];
      CamelSnoc(q, c);
      if p[0] != '_' {
        assert CamelFirst(t) == [p[0]] + (CamelFirst(q) + [c]) == ([p[0]] + CamelFirst(q)) + [c];
        assert CamelStart(t) == [Upper(p[0])] + (CamelRest(q) + [c]) == ([Upper(p[0])] + CamelRest(q)) + [c];
        assert CamelRest(t) == [Lower(p[0])] + (CamelRest(q) + [c]) == ([Lower(p[0])] + CamelRest(q)) + [c];
      }
    }
  }

  /** The renamed key ends with the name's last character when that is a
      lower-case letter following a non-underscore. */
  lemma CamelKeepsLast(n: string)
    requires |n| >= 2 && n[|n| - 2] != '_' && IsLowerLetter(n[|n| - 1])
    ensures SnakeToCamel(n) != [] && SnakeToCamel(n)[|SnakeToCamel(n)| - 1] == n[|n| - 1]
  {
    var p := n[..|n| - 1];
    assert n == p + [n[|n| - 1]];
    CamelSnoc(p, n[|n| - 1]);
    SnakeToCamelCharwise(n);
  }

  /** The `_flag` arguments of account creation keep their suffix: none of
      them is renamed to the key of the attribute its description names. */
  lemma FlagsKeepSuffix(optedOut: string, invalid: string, phoneOptedOut: string, phoneInvalid: string)
    requires optedOut == "email_address_is_opted_out_flag" && invalid == "email_address_is_invalid_flag"
    requires phoneOptedOut == "phone_number_is_opted_out_flag" && phoneInvalid == "phone_number_is_invalid_flag"
    ensures SnakeToCamel(optedOut) != "emailAddressIsOptedOut"
    ensures SnakeToCamel(invalid) != "emailAddressIsInvalid"
    ensures SnakeToCamel(phoneOptedOut) != "phoneNumberIsOptedOut"
    ensures SnakeToCamel(phoneInvalid) != "phoneNumberIsInvalid"
  {
    CamelKeepsLast(optedOut);
    CamelKeepsLast(invalid);
    CamelKeepsLast(phoneOptedOut);
    CamelKeepsLast(phoneInvalid);
  }
}
