/** Ids as requests spell them and as the database compares them. The body and path checks take a UUID in either
    letter case; a `uuid` column compares and prints it in lower case. What the service itself compares is the
    spelling. */
module Ids {

  function Lower(c: char): char {
    if 'A' <= c <= 'Z' then c - 'A' + 'a' else c
  }

  /** The stored id that a spelling denotes. */
  function Key(text: string): (key: string)
    ensures |key| == |text|
  {
    seq(|text|, i requires 0 <= i < |text| => Lower(text[i]))
  }

  function AllKeys(texts: seq<string>): seq<string> {
    seq(|texts|, i requires 0 <= i < |texts| => Key(texts[i]))
  }

  /** Two spellings denote one id exactly when they differ in the case of letters only. */
  lemma SameKeyIff(a: string, b: string)
    ensures Key(a) == Key(b) <==> |a| == |b| && forall i :: 0 <= i < |a| ==> SameLetter(a[i], b[i])
  {
    if |a| == |b| && forall i :: 0 <= i < |a| ==> SameLetter(a[i], b[i]) {
      forall i | 0 <= i < |a| ensures Key(a)[i] == Key(b)[i] {
        assert SameLetter(a[i], b[i]);
      }
    }
    if Key(a) == Key(b) {
      forall i | 0 <= i < |a| ensures SameLetter(a[i], b[i]) {
        assert Key(a)[i] == Key(b)[i];
      }
    }
  }

  /** The same character, or a capital letter and its small one. */
  predicate SameLetter(c: char, d: char) {
    c == d || ('A' <= c <= 'Z' && d as int == c as int + 32) || ('A' <= d <= 'Z' && c as int == d as int + 32)
  }

  /** A stored id denotes itself. */
  lemma KeyOfKey(text: string)
    ensures Key(Key(text)) == Key(text)
  {
  }

  /** Two spellings of one id. */
  lemma HotelSpellings()
    ensures Key("HOTEL") == "hotel" && Key("hotel") == "hotel" && "HOTEL" != "hotel"
  {
    assert Key("HOTEL") == ['h', 'o', 't', 'e', 'l'] && Key("hotel") == ['h', 'o', 't', 'e', 'l'];
    assert "HOTEL"[0] != "hotel"[0];
  }
}
