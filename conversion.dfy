/** `evaluateConversion`: `CONVERT <value> <unit> TO <unit>` between units of
    one family (speed, temperature, mass). The command arrives already split
    into words; the number parser is a parameter. Arithmetic is exact. */
module Conversion {

  datatype Option<T> = None | Some(value: T)

  /** The three families a unit can belong to. */
  datatype Family = Speed | Temperature | Mass

  /** What the conversion returns: one of its five error messages, or the
      converted value followed by the target unit as the user spelled it. */
  datatype Outcome =
    | InsufficientArguments
    | ExpectedTo
    | InvalidNumber(text: string)
    | UnsupportedSource(unit: string)
    | CannotConvert(from: string, to: string)
    | UnsupportedTarget(unit: string)
    | Converted(value: real, unit: string)

  /** `tolower` in the C locale. */
  function LowerChar(c: char): (d: char)
    ensures 'A' <= c <= 'Z' ==> d as int == c as int + 32
    ensures !('A' <= c <= 'Z') ==> d == c
  {
    if 'A' <= c <= 'Z' then (c as int + 32) as char else c
  }

  /** `to_lower`: every character lower-cased, in place. */
  function Lower(s: string): (r: string)
    ensures |r| == |s|
    ensures forall k :: 0 <= k < |s| ==> r[k] == LowerChar(s[k])
  {
    if s == [] then [] else [LowerChar(s[0])] + Lower(s[1..])
  }

  /** The family of a lower-cased unit word, if it names a supported unit. */
  function FamilyOf(unit: string): Option<Family> {
    if unit == "km/h" || unit == "m/s" then Some(Speed)
    else if unit == "c" || unit == "f" || unit == "k" then Some(Temperature)
    else if unit == "kg" || unit == "lb" then Some(Mass)
    else None
  }

  /** A value in a supported unit, expressed in its family's base unit
      (metres per second, kelvin, kilograms). */
  function ToBase(unit: string, x: real): real {
    if unit == "km/h" then x * 1000.0 / 3600.0
    else if unit == "c" then x + 273.15
    else if unit == "f" then (x + 459.67) / 1.8
    else if unit == "lb" then x / 2.20462
    else x
  }

  /** A value in its family's base unit, expressed in a supported unit. */
  function FromBase(unit: string, b: real): real {
    if unit == "km/h" then b * 3600.0 / 1000.0
    else if unit == "c" then b - 273.15
    else if unit == "f" then b * 1.8 - 459.67
    else if unit == "lb" then b * 2.20462
    else b
  }

  /** The decision table: the five errors in the order the conversion checks
      them, otherwise the value taken through the base unit. */
  function Convert(words: seq<string>, stod: string -> Option<real>): Outcome {
    if |words| < 5 then InsufficientArguments
    else if Lower(words[3]) != "to" then ExpectedTo
    else if stod(words[1]).None? then InvalidNumber(words[1])
    else
      var from, to := Lower(words[2]), Lower(words[4]);
      if FamilyOf(from).None? then UnsupportedSource(words[2])
      else if FamilyOf(to).None? then UnsupportedTarget(words[4])
      else if FamilyOf(from) != FamilyOf(to) then CannotConvert(words[2], words[4])
      else Converted(FromBase(to, ToBase(from, stod(words[1]).value)), words[4])
  }

  /** `evaluateConversion` as the source writes it: flags for the source
      family, then a check of the target against them. `words[0]` is the
      command word itself. */
  method EvaluateConversion(words: seq<string>, stod: string -> Option<real>) returns (o: Outcome)
    ensures o == Convert(words, stod)
  {
    if |words| < 5 {
      return InsufficientArguments;
    }
    var valueStr, unitFrom, keywordTo, unitTo := words[1], words[2], words[3], words[4];
    if Lower(keywordTo) != "to" {
      return ExpectedTo;
    }
    var parsed := stod(valueStr);
    if parsed.None? {
      return InvalidNumber(valueStr);
    }
    var value := parsed.value;
    var unitFromLower := Lower(unitFrom);
    var unitToLower := Lower(unitTo);

    var valueInBaseUnit := value;
    var isSpeedConversion, isTempConversion, isMassConversion := false, false, false;
    if unitFromLower == "km/h" || unitFromLower == "m/s" {
      isSpeedConversion := true;
      if unitFromLower == "km/h" {
        valueInBaseUnit := value * 1000.0 / 3600.0;
      }
    } else if unitFromLower == "c" || unitFromLower == "f" || unitFromLower == "k" {
      isTempConversion := true;
      if unitFromLower == "c" {
        valueInBaseUnit := value + 273.15;
      } else if unitFromLower == "f" {
        valueInBaseUnit := (value + 459.67) / 1.8;
      }
    } else if unitFromLower == "kg" || unitFromLower == "lb" {
      isMassConversion := true;
      if unitFromLower == "lb" {
        valueInBaseUnit := value / 2.20462;
      }
    } else {
      return UnsupportedSource(unitFrom);
    }

    var finalResult := valueInBaseUnit;
    if unitToLower == "m/s" {
      if !isSpeedConversion {
        return CannotConvert(unitFrom, unitTo);
      }
    } else if unitToLower == "km/h" {
      if !isSpeedConversion {
        return CannotConvert(unitFrom, unitTo);
      }
      finalResult := valueInBaseUnit * 3600.0 / 1000.0;
    } else if unitToLower == "c" || unitToLower == "f" || unitToLower == "k" {
      if !isTempConversion {
        return CannotConvert(unitFrom, unitTo);
      }
      if unitToLower == "c" {
        finalResult := valueInBaseUnit - 273.15;
      } else if unitToLower == "f" {
        finalResult := valueInBaseUnit * 1.8 - 459.67;
      }
    } else if unitToLower == "kg" {
      if !isMassConversion {
        return CannotConvert(unitFrom, unitTo);
      }
    } else if unitToLower == "lb" {
      if !isMassConversion {
        return CannotConvert(unitFrom, unitTo);
      }
      finalResult := valueInBaseUnit * 2.20462;
    } else {
      return UnsupportedTarget(unitTo);
    }
    o := Converted(finalResult, unitTo);
  }

  // ---------------------------------------------------------------------------
  // Properties of the table
  // ---------------------------------------------------------------------------

  /** Going to the base unit and back is the identity, in every supported unit. */
  lemma BaseRoundTrip(unit: string, x: real)
    requires FamilyOf(unit).Some?
    ensures FromBase(unit, ToBase(unit, x)) == x
    ensures ToBase(unit, FromBase(unit, x)) == x
  {
  }

  /** A value converts only between two supported units of one family, after
      the keyword and the number have been accepted. */
  lemma ConvertedExactly(words: seq<string>, stod: string -> Option<real>)
    ensures Convert(words, stod).Converted? <==>
      |words| >= 5 && Lower(words[3]) == "to" && stod(words[1]).Some? &&
      FamilyOf(Lower(words[2])).Some? && FamilyOf(Lower(words[2])) == FamilyOf(Lower(words[4]))
  {
  }

  /** Converting there and back returns the starting value. */
  lemma ConvertBack(value: real, from: string, to: string)
    requires FamilyOf(Lower(from)).Some? && FamilyOf(Lower(from)) == FamilyOf(Lower(to))
    ensures var there := FromBase(Lower(to), ToBase(Lower(from), value));
      FromBase(Lower(from), ToBase(Lower(to), there)) == value
  {
    var b := ToBase(Lower(from), value);
    BaseRoundTrip(Lower(to), b);
    BaseRoundTrip(Lower(from), value);
  }

  /** Converting a value to its own unit gives it back unchanged, whatever
      the letter case of the two spellings. */
  lemma SameUnitIsIdentity(words: seq<string>, stod: string -> Option<real>)
    requires |words| >= 5 && Lower(words[3]) == "to" && stod(words[1]).Some?
    requires FamilyOf(Lower(words[2])).Some? && Lower(words[2]) == Lower(words[4])
    ensures Convert(words, stod) == Converted(stod(words[1]).value, words[4])
  {
    BaseRoundTrip(Lower(words[2]), stod(words[1]).value);
  }

  // ---------------------------------------------------------------------------
  // The order of the checks
  // ---------------------------------------------------------------------------

  /** The keyword is checked before the number: a command with a misplaced
      `to` is reported as such whatever its value word holds. */
  lemma KeywordCheckedBeforeNumber(words: seq<string>, stod: string -> Option<real>)
    requires |words| >= 5 && Lower(words[3]) != "to"
    ensures Convert(words, stod) == ExpectedTo
  {
  }

  /** The number is checked before the units: an unreadable value is reported
      whatever the two units are. */
  lemma NumberCheckedBeforeUnits(words: seq<string>, stod: string -> Option<real>)
    requires |words| >= 5 && Lower(words[3]) == "to" && stod(words[1]).None?
    ensures Convert(words, stod) == InvalidNumber(words[1])
  {
  }

  /** An unsupported source unit is reported before anything about the
      target, even when the target is unsupported too. */
  lemma SourceCheckedBeforeTarget(words: seq<string>, stod: string -> Option<real>)
    requires |words| >= 5 && Lower(words[3]) == "to" && stod(words[1]).Some?
    requires FamilyOf(Lower(words[2])).None?
    ensures Convert(words, stod) == UnsupportedSource(words[2])
  {
  }

  /** The target unit is reported unsupported exactly when everything before
      it was accepted, the source unit included. */
  lemma UnsupportedTargetExactly(words: seq<string>, stod: string -> Option<real>)
    ensures Convert(words, stod).UnsupportedTarget? <==>
      |words| >= 5 && Lower(words[3]) == "to" && stod(words[1]).Some? &&
      FamilyOf(Lower(words[2])).Some? && FamilyOf(Lower(words[4])).None?
    ensures Convert(words, stod).UnsupportedTarget? ==> Convert(words, stod).unit == words[4]
  {
  }

  /** Two supported units of different families cannot be converted, and
      that is the only way to get this message. */
  lemma CannotConvertExactly(words: seq<string>, stod: string -> Option<real>)
    ensures Convert(words, stod).CannotConvert? <==>
      |words| >= 5 && Lower(words[3]) == "to" && stod(words[1]).Some? &&
      FamilyOf(Lower(words[2])).Some? && FamilyOf(Lower(words[4])).Some? &&
      FamilyOf(Lower(words[2])) != FamilyOf(Lower(words[4]))
    ensures Convert(words, stod).CannotConvert? ==>
      Convert(words, stod) == CannotConvert(words[2], words[4])
  {
  }
}
