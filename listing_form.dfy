/** The key filters of the listing form. Each handler is modelled by
    whether it calls `preventDefault` for the pressed key, i.e. whether the
    key is blocked. */
module ListingForm {
  import opened Strings

  /** The keys that would let a number field take a sign, an exponent or a
      fraction. */
  const NumberLikeKeys: set<string> := {"-", "+", "e", "E", "."}

  /** `/[0-9]/.test(key)` */
  function ContainsDigit(key: string): (b: bool)
    ensures b <==> exists i :: 0 <= i < |key| && IsAsciiDigit(key[i])
  {
    if |key| == 0 then false
    else if IsAsciiDigit(key[0]) then true
    else
      TailDigits(key);
      ContainsDigit(key[1..])
  }

  lemma TailDigits(key: string)
    requires |key| > 0
    ensures (exists i :: 0 <= i < |key[1..]| && IsAsciiDigit(key[1..][i])) <==> (exists i :: 1 <= i < |key| && IsAsciiDigit(key[i]))
  {
    if exists i :: 0 <= i < |key[1..]| && IsAsciiDigit(key[1..][i]) {
      var i :| 0 <= i < |key[1..]| && IsAsciiDigit(key[1..][i]);
      assert key[i + 1] == key[1..][i];
    }
    if exists i :: 1 <= i < |key| && IsAsciiDigit(key[i]) {
      var i :| 1 <= i < |key| && IsAsciiDigit(key[i]);
      assert key[1..][i - 1] == key[i];
    }
  }

  /** `preventInvalidInput`: blocks exactly the five number-like keys. */
  function PreventInvalidInput(key: string): (blocked: bool)
    ensures blocked <==> key in NumberLikeKeys
  {
    key == "-" || key == "+" || key == "e" || key == "E" || key == "."
  }

  /** `preventInvalidName`: the five number-like keys always, and any key
      whose name has a digit in it while the field is still empty. */
  function PreventInvalidName(key: string, value: string): (blocked: bool)
    ensures blocked <==> key in NumberLikeKeys || (value == "" && exists i :: 0 <= i < |key| && IsAsciiDigit(key[i]))
  {
    var firstChar := if |value| == 0 then "" else [value[0]];
    PreventInvalidInput(key) || (ContainsDigit(key) && firstChar == "")
  }

  /** Once the field has text, the name filter is the number filter. */
  lemma NameFilterAfterFirstChar(key: string, value: string)
    requires value != ""
    ensures PreventInvalidName(key, value) == PreventInvalidInput(key)
  {
  }

  /** On an empty field a digit key, and a key such as `F5`, is blocked;
      once the field has text the same keys pass. */
  lemma DigitKeysOnEmptyName()
    ensures PreventInvalidName("5", "") && PreventInvalidName("F5", "")
    ensures !PreventInvalidName("5", "a") && !PreventInvalidName("F5", "a")
    ensures !PreventInvalidInput("5")
  {
    assert IsAsciiDigit("5"[0]);
    assert IsAsciiDigit("F5"[1]);
  }
}
