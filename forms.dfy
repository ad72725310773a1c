/**
 * What the reactive forms of the public pages share: the error keys a
 * control can carry, Angular's built-in length and presence validators on
 * a text value, the first-match choice of an error message, and the effect
 * of a key filter on what can be typed into a field.
 */
module Forms {
  import Text

  datatype ErrorKey =
    | Required | Email | MinLength | MaxLength | Pattern
    | InvalidPassword | CorreoNoCoincide | InvalidInput
    | InvalidEmail | InvalidName | InvalidPhone

  /** `Validators.required` on a text value: only the empty value fails. */
  predicate RequiredFails(v: string) {
    v == ""
  }

  /** `Validators.minLength(n)`: an empty value passes; a shorter one fails. */
  predicate MinLengthFails(v: string, n: nat) {
    v != "" && |v| < n
  }

  /** `Validators.maxLength(n)`. */
  predicate MaxLengthFails(v: string, n: nat) {
    |v| > n
  }

  /**
   * The message of the first entry of `table` whose key is among `errors`,
   * or "" when there is none (a chain of `hasError` tests).
   */
  function FirstMessage(errors: set<ErrorKey>, table: seq<(ErrorKey, string)>): string {
    if table == [] then ""
    else if table[0].0 in errors then table[0].1
    else FirstMessage(errors, table[1..])
  }

  /** The chosen message belongs to the first present key, and "" means no listed key is present. */
  lemma {:induction false} FirstMessageSpec(errors: set<ErrorKey>, table: seq<(ErrorKey, string)>, k: nat)
    requires k < |table| && table[k].0 in errors
    requires forall j :: 0 <= j < k ==> table[j].0 !in errors
    ensures FirstMessage(errors, table) == table[k].1
  {
    if k > 0 {
      FirstMessageSpec(errors, table[1..], k - 1);
    }
  }

  lemma {:induction false} FirstMessageNone(errors: set<ErrorKey>, table: seq<(ErrorKey, string)>)
    requires forall j :: 0 <= j < |table| ==> table[j].0 !in errors
    ensures FirstMessage(errors, table) == ""
  {
    if table != [] {
      FirstMessageNone(errors, table[1..]);
    }
  }

  // ---------------------------------------------------------------------
  // Typing through a key filter
  // ---------------------------------------------------------------------

  /**
   * The `keydown` filter `validarCaracteres`: the default action is prevented
   * when the key's name contains a forbidden character.
   */
  predicate KeyBlocked(key: string, forbidden: set<char>) {
    Text.ContainsAnyOf(key, forbidden)
  }

  /**
   * The field's value after the key presses, when pasting is prevented: a
   * single-character key that is not blocked is appended, "Backspace"
   * removes the last character, other keys leave the value as it is.
   */
  function Typed(keys: seq<string>, forbidden: set<char>): string
    decreases |keys|
  {
    if keys == [] then ""
    else
      var before := Typed(keys[..|keys| - 1], forbidden);
      var key := keys[|keys| - 1];
      if |key| == 1 && !KeyBlocked(key, forbidden) then before + key
      else if key == "Backspace" && before != [] then before[..|before| - 1]
      else before
  }

  /** Whatever is typed through the filter, the field never holds a forbidden character. */
  lemma {:induction false} TypedValueHasNoForbiddenChar(keys: seq<string>, forbidden: set<char>)
    ensures !Text.ContainsAnyOf(Typed(keys, forbidden), forbidden)
    decreases |keys|
  {
    if keys != [] {
      var before := Typed(keys[..|keys| - 1], forbidden);
      TypedValueHasNoForbiddenChar(keys[..|keys| - 1], forbidden);
      var key := keys[|keys| - 1];
      if |key| == 1 && !KeyBlocked(key, forbidden) {
        var after := before + key;
        forall i | 0 <= i < |after|
          ensures after[i] !in forbidden
        {
          if i < |before| {
            assert after[i] == before[i];
          } else {
            assert after[i] == key[0];
          }
        }
      } else if key == "Backspace" && before != [] {
        var after := before[..|before| - 1];
        assert forall i :: 0 <= i < |after| ==> after[i] == before[i];
      }
    }
  }
}
