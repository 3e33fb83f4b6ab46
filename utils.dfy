/**
 The helpers of `src/lib/utils.ts`: the query validator, the character
 counter's text, and the three functions that keep the draft query in the
 browser's `localStorage` under one fixed key.
 */
module Utils {
  import opened Base
  import opened JsString

  /** Bounds on the trimmed query, in UTF-16 code units. */
  const MinLength: nat := 10
  const MaxLength: nat := 2000

  /** The one `localStorage` key the draft helpers use. */
  const StorageKey: string := "justiceai-query"

  // ---------------------------------------------------------------------
  // validateQuery
  // ---------------------------------------------------------------------

  /** The empty-query message; the language decides its script. */
  function EmptyQueryMessage(language: Language): (r: string)
    ensures language == En <==> IsAscii(r)
  {
    var r := if language == En then "Please enter a legal query to analyze."
      else "براہ کرم تجزیہ کے لیے قانونی سوال درج کریں۔";
    assert language == Ur ==> r[0] >= '\U{80}';
    r
  }

  /** The too-short message; it states the minimum length, in the script of its language. */
  function TooShortMessage(language: Language): (r: string)
    ensures Mentions(r, NumberToString(MinLength))
    ensures language == En <==> IsAscii(r)
  {
    var prefix := if language == En then "Query must be at least " else "سوال کم از کم ";
    var suffix := if language == En then " characters long." else " حروف کا ہونا چاہیے۔";
    assert language == En ==> IsAscii(prefix) && IsAscii(suffix);
    assert language == Ur ==> prefix[0] >= '\U{80}';
    FramedNumber(prefix, NumberToString(MinLength), suffix);
    prefix + NumberToString(MinLength) + suffix
  }

  /** The too-long message; it states the maximum length, in the script of its language. */
  function TooLongMessage(language: Language): (r: string)
    ensures Mentions(r, NumberToString(MaxLength))
    ensures language == En <==> IsAscii(r)
  {
    var prefix := if language == En then "Query must be less than " else "سوال ";
    var suffix := if language == En then " characters." else " حروف سے کم ہونا چاہیے۔";
    assert language == En ==> IsAscii(prefix) && IsAscii(suffix);
    assert language == Ur ==> prefix[0] >= '\U{80}';
    FramedNumber(prefix, NumberToString(MaxLength), suffix);
    prefix + NumberToString(MaxLength) + suffix
  }

  /** A number's text set between two texts is mentioned, and adds no non-ASCII character. */
  lemma FramedNumber(prefix: string, n: string, suffix: string)
    requires CanonicalDigits(n)
    ensures Mentions(prefix + n + suffix, n)
    ensures IsAscii(prefix + n + suffix) <==> IsAscii(prefix) && IsAscii(suffix)
  {
    var r := prefix + n + suffix;
    assert r[|prefix|..][..|n|] == n;
    assert StartsWith(r[|prefix|..], n);
    if IsAscii(r) {
      forall i | 0 <= i < |prefix| ensures prefix[i] < '\U{80}' { assert r[i] == prefix[i]; }
      forall i | 0 <= i < |suffix| ensures suffix[i] < '\U{80}' { assert r[|prefix| + |n| + i] == suffix[i]; }
    }
  }

  /**
   `validateQuery`: checks the trimmed query for emptiness, then for being
   too short, then for being too long, and returns the first message that
   applies in the chosen language (English by default), or `None`.
   */
  function ValidateQuery(query: string, language: Language := En): (r: Option<string>)
    ensures r == None <==> MinLength <= Utf16Length(Trim(query)) <= MaxLength
    ensures r != None ==>
      r.value == EmptyQueryMessage(language) ||
      r.value == TooShortMessage(language) ||
      r.value == TooLongMessage(language)
  {
    var trimmed := Trim(query);
    if trimmed == [] then Some(EmptyQueryMessage(language))
    else if Utf16Length(trimmed) < MinLength then Some(TooShortMessage(language))
    else if Utf16Length(trimmed) > MaxLength then Some(TooLongMessage(language))
    else None
  }

  /** The three messages of one language are different texts, so a message names its rule. */
  lemma MessagesDistinct(language: Language)
    ensures EmptyQueryMessage(language) != TooShortMessage(language)
    ensures EmptyQueryMessage(language) != TooLongMessage(language)
    ensures TooShortMessage(language) != TooLongMessage(language)
  {
    var empty, short, long := EmptyQueryMessage(language), TooShortMessage(language), TooLongMessage(language);
    if language == En {
      var shortPrefix, longPrefix := "Query must be at least ", "Query must be less than ";
      assert short == shortPrefix + NumberToString(MinLength) + " characters long.";
      assert long == longPrefix + NumberToString(MaxLength) + " characters.";
      assert empty[0] == 'P' && short[0] == 'Q' && long[0] == 'Q';
      assert short[14] == shortPrefix[14] == 'a';
      assert long[14] == longPrefix[14] == 'l';
    } else {
      var shortPrefix, longPrefix := "سوال کم از کم ", "سوال ";
      assert short == shortPrefix + NumberToString(MinLength) + " حروف کا ہونا چاہیے۔";
      assert long == longPrefix + NumberToString(MaxLength) + " حروف سے کم ہونا چاہیے۔";
      assert empty[0] == 'ب' && short[0] == 'س' && long[0] == 'س';
      assert short[5] == shortPrefix[5] == 'ک';
      assert long[5] == NumberToString(MaxLength)[0] == '2';
    }
  }

  /**
   The rules are tried in a fixed order: a blank query gets the empty-query
   message (never the too-short one), a non-blank query shorter than the
   minimum gets the too-short message, a longer one than the maximum the
   too-long message.
   */
  lemma ValidateQueryOrder(query: string, language: Language)
    ensures ValidateQuery(query, language) == Some(EmptyQueryMessage(language))
      <==> Trim(query) == []
    ensures ValidateQuery(query, language) == Some(TooShortMessage(language))
      <==> Trim(query) != [] && Utf16Length(Trim(query)) < MinLength
    ensures ValidateQuery(query, language) == Some(TooLongMessage(language))
      <==> Utf16Length(Trim(query)) > MaxLength
  {
    MessagesDistinct(language);
  }

  /** The language picks the wording only: both languages fire the same rule on every query. */
  lemma ValidateQueryLanguageIndependent(query: string)
    ensures ValidateQuery(query, En) == None <==> ValidateQuery(query, Ur) == None
    ensures ValidateQuery(query, En) == Some(EmptyQueryMessage(En))
      <==> ValidateQuery(query, Ur) == Some(EmptyQueryMessage(Ur))
    ensures ValidateQuery(query, En) == Some(TooShortMessage(En))
      <==> ValidateQuery(query, Ur) == Some(TooShortMessage(Ur))
    ensures ValidateQuery(query, En) == Some(TooLongMessage(En))
      <==> ValidateQuery(query, Ur) == Some(TooLongMessage(Ur))
  {
    ValidateQueryOrder(query, En);
    ValidateQueryOrder(query, Ur);
  }

  /** Only the trimmed text matters: white space added at either end never changes the verdict. */
  lemma ValidateQueryIgnoresPadding(lead: string, query: string, trail: string, language: Language)
    requires AllWhiteSpace(lead) && AllWhiteSpace(trail)
    ensures ValidateQuery(lead + query + trail, language) == ValidateQuery(query, language)
  {
    TrimIgnoresPadding(lead, query, trail);
  }

  // ---------------------------------------------------------------------
  // formatCharacterCount
  // ---------------------------------------------------------------------

  /** `formatCharacterCount`: the text `${current}/${max}`. */
  function FormatCharacterCount(current: int, max: int): (r: string)
    ensures forall j :: 0 <= j < |r| ==> (r[j] == '/' <==> j == |NumberToString(current)|)
  {
    NumberToStringHasNoSlash(current);
    NumberToStringHasNoSlash(max);
    NumberToString(current) + "/" + NumberToString(max)
  }

  /** Index of the first `c` in `s`, or `|s|` when there is none. */
  function IndexOf(s: string, c: char): (i: nat)
    ensures i <= |s|
    ensures forall j :: 0 <= j < i ==> s[j] != c
    ensures i < |s| ==> s[i] == c
  {
    if s == [] || s[0] == c then 0 else 1 + IndexOf(s[1..], c)
  }

  /** Reads a counter text back: two integers' decimal texts around the first `/`. */
  function ParseCharacterCount(s: string): (r: Option<(int, int)>) {
    var k := IndexOf(s, '/');
    if k == |s| then None
    else match (ParseNumber(s[..k]), ParseNumber(s[k + 1..]))
      case (Some(current), Some(max)) => Some((current, max))
      case _ => None
  }

  lemma NumberToStringHasNoSlash(n: int)
    ensures forall j :: 0 <= j < |NumberToString(n)| ==> NumberToString(n)[j] != '/'
  {
  }

  /** The counter text splits back into exactly the two numbers it was made from. */
  lemma FormatCharacterCountRoundTrip(current: int, max: int)
    ensures ParseCharacterCount(FormatCharacterCount(current, max)) == Some((current, max))
  {
    var a, b := NumberToString(current), NumberToString(max);
    var s := FormatCharacterCount(current, max);
    NumberToStringHasNoSlash(current);
    assert s[|a|] == '/';
    var k := IndexOf(s, '/');
    assert k == |a|;
    assert s[..k] == a && s[k + 1..] == b;
    NumberToStringRoundTrip(current);
    NumberToStringRoundTrip(max);
  }

  /** Every text that reads back as a counter is exactly the counter text of what it reads as. */
  lemma ParseCharacterCountExact(s: string, current: int, max: int)
    requires ParseCharacterCount(s) == Some((current, max))
    ensures FormatCharacterCount(current, max) == s
  {
    var k := IndexOf(s, '/');
    ParseNumberExact(s[..k], current);
    ParseNumberExact(s[k + 1..], max);
    assert s == s[..k] + [s[k]] + s[k + 1..];
  }

  // ---------------------------------------------------------------------
  // saveQueryToStorage, getQueryFromStorage, clearQueryFromStorage
  // ---------------------------------------------------------------------

  /**
   The browser environment the draft helpers see: whether `window` exists
   (it does not while the page is rendered on the server) and the contents
   of `localStorage`.
   */
  class DraftStorage {
    const hasWindow: bool
    var items: map<string, string>

    constructor (hasWindow: bool, items: map<string, string>)
      ensures this.hasWindow == hasWindow && this.items == items
    {
      this.hasWindow := hasWindow;
      this.items := items;
    }

    /** The draft as `getQueryFromStorage` reports it. */
    function Draft(): Option<string>
      reads this
    {
      if hasWindow && StorageKey in items then Some(items[StorageKey]) else None
    }

    /** Stores the query under the draft key; without `window` nothing happens. */
    method SaveQueryToStorage(query: string)
      modifies this
      ensures items == if hasWindow then old(items)[StorageKey := query] else old(items)
      ensures Draft() == if hasWindow then Some(query) else None
      ensures items - {StorageKey} == old(items) - {StorageKey}
    {
      if hasWindow {
        items := items[StorageKey := query];
      }
    }

    /** Reads the draft; `None` when no draft is stored or there is no `window`. */
    method GetQueryFromStorage() returns (r: Option<string>)
      ensures r == Draft()
      ensures !hasWindow ==> r == None
    {
      if hasWindow {
        if StorageKey in items {
          r := Some(items[StorageKey]);
        } else {
          r := None;
        }
      } else {
        r := None;
      }
    }

    /** Removes the draft key; without `window` nothing happens. */
    method ClearQueryFromStorage()
      modifies this
      ensures items == if hasWindow then old(items) - {StorageKey} else old(items)
      ensures Draft() == None
      ensures items - {StorageKey} == old(items) - {StorageKey}
    {
      if hasWindow {
        items := items - {StorageKey};
      }
    }
  }
}
