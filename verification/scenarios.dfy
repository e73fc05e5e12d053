/** Worked examples: concrete inputs and what the model does with them. */
module Scenarios {
  import opened Wrappers
  import opened Text
  import opened Dates
  import opened Contracts
  import opened DateParser
  import opened Validation
  import opened ValidationProperties
  import opened BindingErrors
  import opened SnakeCase

  /** The anchored digit patterns tolerate exactly one trailing line feed. */
  lemma PhoneNumberExamples()
    ensures IsPhoneNumber("98765432")
    ensures IsPhoneNumber("98765432\n")
    ensures !IsPhoneNumber("98765432\n\n")
    ensures !IsPhoneNumber("1234567")
    ensures !IsPhoneNumber("+919876543210")
  {
    assert Anchored("98765432\n") == "98765432";
    assert Anchored("98765432\n\n") == "98765432\n";
    assert !IsDigit("98765432\n"[8]);
    assert !IsDigit("+919876543210"[0]);
  }

  /** Five upper-case letters, four digits, one upper-case letter. */
  lemma PanExamples()
    ensures IsPan("ABCDE1234F")
    ensures !IsPan("abcde1234f")
    ensures !IsPan("abc")
  {
    var t := "ABCDE1234F";
    assert forall i :: 0 <= i < 5 ==> IsUpper(t[i]);
    assert forall i :: 5 <= i < 9 ==> IsDigit(t[i]);
    assert !IsUpper("abcde1234f"[0]);
  }

  /** A request without a personal e-mail fails that rule with REQUIRED alone,
      whatever the e-mail check says about a missing value. */
  lemma MissingEmailIsRequiredOnly(r: PreOnboardingRequest, ctx: Context)
    requires r.personalEmail.None?
    ensures Codes(For(Validate(r, ctx), PersonalEmail)) == [Required]
  {
    ContactRules(r, ctx);
  }

  /** A blank but present e-mail that the e-mail check rejects fails twice,
      in rule order. */
  lemma BlankEmailFailsTwice(r: PreOnboardingRequest, ctx: Context)
    requires r.personalEmail.Some? && IsBlank(r.personalEmail)
    requires !ctx.isEmail(r.personalEmail.value)
    ensures Codes(For(Validate(r, ctx), PersonalEmail)) == [Required, InvalidEmail]
  {
    ContactRules(r, ctx);
    assert Flag(true, Required) + Flag(true, InvalidEmail) == [Required, InvalidEmail];
  }

  /** A lower-case PAN is reported as INVALID_PAN under `kyc.pan`. */
  lemma LowerCasePanIsRejected(r: PreOnboardingRequest, ctx: Context)
    requires r.kyc.Some? && r.kyc.value.pan == Some("abcde1234f")
    ensures Codes(For(Validate(r, ctx), KycPan)) == [InvalidPan]
  {
    PanExamples();
    assert !IsBlank(r.kyc.value.pan) by {
      assert !IsWhiteSpace("abcde1234f"[0]);
    }
    ValidateFor(r, ctx, KycPan);
    KycPanCodes(r, ctx);
  }

  /** A leap day parses in a leap year. */
  lemma LeapDayParses()
    ensures ParseRequired("29-02-2024", "joining_date") == Success(Date(2024, 2, 29))
  {
    var s := "29-02-2024";
    assert HasShape(s);
    assert DigitValue(s[6]) == 2 && DigitValue(s[7]) == 0 && DigitValue(s[8]) == 2 && DigitValue(s[9]) == 4;
    assert DigitValue(s[0]) == 2 && DigitValue(s[1]) == 9;
    assert DigitValue(s[3]) == 0 && DigitValue(s[4]) == 2;
    assert Fields(s) == Date(2024, 2, 29);
  }

  /** The same day in a common year is rejected with the field's format message. */
  lemma LeapDayRejectedInCommonYear()
    ensures ParseRequired("29-02-2023", "joining_date") == Failure(FormatError("joining_date"))
  {
    CommonYearLeapDay();
    assert !IsValid(Date(2023, 2, 29));
  }

  lemma CommonYearLeapDay()
    ensures HasShape("29-02-2023") && Fields("29-02-2023") == Date(2023, 2, 29)
  {
    var s := "29-02-2023";
    assert HasShape(s);
    assert DigitValue(s[6]) == 2 && DigitValue(s[7]) == 0 && DigitValue(s[8]) == 2 && DigitValue(s[9]) == 3;
    assert DigitValue(s[0]) == 2 && DigitValue(s[1]) == 9;
    assert DigitValue(s[3]) == 0 && DigitValue(s[4]) == 2;
  }

  /** Only the `dd-MM-yyyy` layout is read; a missing optional date is no error. */
  lemma LayoutExamples()
    ensures ParseRequired("2024-02-29", "joining_date").Failure?
    ensures ParseRequired("01-01-2024 ", "joining_date").Failure?
    ensures ParseOptional(None, "joining_date") == Success(None)
    ensures ParseOptional(Some("  "), "joining_date") == Success(None)
  {
    assert !HasShape("2024-02-29") by {
      assert "2024-02-29"[2] != '-';
    }
    assert AllWhiteSpace("  ") by {
      assert IsWhiteSpace("  "[0]) && IsWhiteSpace("  "[1]);
    }
  }

  /** Two entries, one without errors: each error gives one field error and a
      blank message falls back to "Invalid value.". */
  lemma BindingExample()
    ensures Flatten([ModelStateEntry("$.pay.ctc", Some(["", "Could not convert."])),
                     ModelStateEntry("first_name", None)])
         == [ApiFieldError("$.pay.ctc", "INVALID", "Invalid value."),
             ApiFieldError("$.pay.ctc", "INVALID", "Could not convert.")]
  {
    var msg := "Could not convert.";
    assert !IsWhiteSpace(msg[0]);
    assert !AllWhiteSpace(msg);
    assert AllWhiteSpace("");
    var entries := [ModelStateEntry("$.pay.ctc", Some(["", msg])), ModelStateEntry("first_name", None)];
    assert Flatten(entries[1..]) == EntryErrors(entries[1]) + Flatten(entries[2..]);
  }

  /** A camel-case segment is split before its inner capital. */
  lemma CamelCaseSegment()
    ensures ToSnakeCase("EmergencyContact") == "emergency_contact"
  {
    var a, b := "Emergency", "Contact";
    assert a + b == "EmergencyContact";
    assert SingleWord(a) && SingleWord(b);
    TwoWordSegment(a, b);
    assert LowerAll(a) == "emergency";
    assert LowerAll(b) == "contact";
  }
}
