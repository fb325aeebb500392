/**
 * The admission filter's predicates and the fixed pronunciation table of
 * `internal/voice/helper.go`.
 */
module Helper {
  import Text

  /** RE2's `\s` class: tab, newline, form feed, carriage return, space. */
  predicate IsSpace(c: char)
  {
    c == '\t' || c == '\n' || c == '\U{000C}' || c == '\r' || c == ' '
  }

  /** The regular expression `https?://[^\s]+` matches starting at index `i`:
      "http://" or "https://" there, followed by at least one non-space. */
  predicate LinkAt(s: string, i: int)
  {
    || (Text.OccursAt(s, "http://", i) && i + 7 < |s| && !IsSpace(s[i + 7]))
    || (Text.OccursAt(s, "https://", i) && i + 8 < |s| && !IsSpace(s[i + 8]))
  }

  /** Unanchored regular-expression search from position `from` onward. */
  function LinkFrom(s: string, from: nat): (r: bool)
    ensures r <==> exists i :: from <= i < |s| && LinkAt(s, i)
    decreases |s| - from
  {
    if from >= |s| then false
    else LinkAt(s, from) || LinkFrom(s, from + 1)
  }

  /** `IsLink`: the text holds a URL according to `https?://[^\s]+`. */
  function IsLink(text: string): (r: bool)
    ensures r <==> exists i :: 0 <= i < |text| && LinkAt(text, i)
  {
    LinkFrom(text, 0)
  }

  /** `ContainsMention`: the text holds an "@" anywhere, e-mail addresses included. */
  function ContainsMention(text: string): (r: bool)
    ensures r <==> '@' in text
  {
    Text.ContainsChar(text, '@');
    Text.Contains(text, "@")
  }

  /** `ContainsSticker`: the message carries at least one sticker. The
      count is a slice length, so for any count that can occur it is true
      iff the count is not zero. */
  function ContainsSticker(stickerCount: int): (r: bool)
    ensures stickerCount >= 0 ==> (r <==> stickerCount != 0)
  {
    stickerCount > 0
  }

  /** The custom pronunciations, as a table from whole message to replacement. */
  const Pronunciations: map<string, string> :=
    map["สีเหลือง" := "เย็นโล่", "มีด" := "อีโต้", "ชุดชั้นใน" := "วาโก้"]

  /** `ProcessText`: an exact-match switch over the three keys. */
  function ProcessText(text: string): (r: string)
    ensures text in Pronunciations ==> r == Pronunciations[text]
    ensures text !in Pronunciations ==> r == text
  {
    match text
    case "สีเหลือง" => "เย็นโล่"
    case "มีด" => "อีโต้"
    case "ชุดชั้นใน" => "วาโก้"
    case _ => text
  }

  /** No replacement is itself a key, so a second pass changes nothing. */
  lemma ProcessTextIdempotent(text: string)
    ensures ProcessText(ProcessText(text)) == ProcessText(text)
  {
    assert forall k :: k in Pronunciations ==> Pronunciations[k] !in Pronunciations;
  }

  /** Matching is on the whole message: text that merely contains a key,
      but is not one, is passed through. */
  lemma ProcessTextWholeMatch(text: string, key: string)
    requires key in Pronunciations
    requires Text.Contains(text, key) && text != key
    ensures ProcessText(text) == text
  {
    var i :| Text.OccursAt(text, key, i);
    assert text[i] == key[0] by {
      assert text[i..i + |key|][0] == text[i];
    }
    // the keys differ from one another already in their first characters
    assert forall k, k' :: k in Pronunciations && k' in Pronunciations && k != k' ==> k'[0] !in k;
  }
}
