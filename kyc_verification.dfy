/** The four-step identity check a fiat purchase may ask for: personal details,
    address, identity document, selfie. Uploaded images are modelled only by
    whether one was chosen. */
module KycVerification {

  datatype KycData = KycData(
    firstName: string, lastName: string, dateOfBirth: string, nationality: string,
    address: string, city: string, postalCode: string, country: string, phoneNumber: string,
    idType: string, idNumber: string,
    hasIdFront: bool, hasIdBack: bool, hasSelfie: bool)

  const EmptyData := KycData("", "", "", "", "", "", "", "", "", "", "", false, false, false)

  /** `validateStep`: whether the fields step `step` asks for are filled in. */
  predicate StepComplete(d: KycData, step: int) {
    match step
    case 1 => d.firstName != "" && d.lastName != "" && d.dateOfBirth != "" && d.nationality != ""
    case 2 => d.address != "" && d.city != "" && d.country != "" && d.phoneNumber != ""
    case 3 => d.idType != "" && d.idNumber != "" && d.hasIdFront && (d.idType != "passport" ==> d.hasIdBack)
    case 4 => d.hasSelfie
    case _ => false
  }

  /** What each step leaves out: the postal code is never required, a passport
      needs no back image while other documents do, and no step outside 1..4
      is ever complete. */
  lemma WhatStepsRequire(d: KycData, postalCode: string, step: int)
    ensures StepComplete(d.(postalCode := postalCode), step) == StepComplete(d, step)
    ensures d.idType == "passport" ==> StepComplete(d.(hasIdBack := false), 3) == StepComplete(d.(hasIdBack := true), 3)
    ensures d.idType != "passport" ==> !StepComplete(d.(hasIdBack := false), 3)
    ensures (step < 1 || step > 4) ==> !StepComplete(d, step)
    ensures !StepComplete(EmptyData, step)
  {
  }

  /** `progress`: the share of the four steps reached, in percent. */
  function Progress(step: int): (r: real) {
    (step as real / 4.0) * 100.0
  }

  /** Within the wizard the bar moves in quarters and is full exactly at the last step. */
  lemma ProgressInQuarters(step: int)
    requires 1 <= step <= 4
    ensures Progress(step) == (step * 25) as real
    ensures 25.0 <= Progress(step) <= 100.0
    ensures Progress(step) == 100.0 <==> step == 4
  {
  }

  /** What pressing Next did. `Submitted` carries what `onComplete` was told. */
  datatype NextOutcome = Advanced | Incomplete | Submitted(verified: bool)

  class KycWizard {
    var step: int
    var isLoading: bool
    var data: KycData

    ghost predicate Valid()
      reads this
    {
      1 <= step <= 4
    }

    constructor()
      ensures Valid() && step == 1 && !isLoading && data == EmptyData
    {
      step, isLoading, data := 1, false, EmptyData;
    }

    /** `handleNext`: an incomplete step stays put; a complete one moves on,
        except the last, which is submitted, and the submission always reports
        the user verified. */
    method HandleNext() returns (r: NextOutcome)
      requires Valid()
      modifies this
      ensures Valid() && data == old(data)
      ensures !StepComplete(old(data), old(step)) ==> r == Incomplete && step == old(step) && isLoading == old(isLoading)
      ensures StepComplete(old(data), old(step)) && old(step) < 4 ==>
                r == Advanced && step == old(step) + 1 && isLoading == old(isLoading)
      ensures StepComplete(old(data), old(step)) && old(step) == 4 ==> r == Submitted(true) && step == 4 && !isLoading
    {
      if !StepComplete(data, step) {
        return Incomplete;
      }
      if step < 4 {
        step := step + 1;
        return Advanced;
      }
      r := Submit();
    }

    /** `handleSubmit`: the simulated submission, loading while it runs. */
    method Submit() returns (r: NextOutcome)
      requires Valid()
      modifies this
      ensures Valid() && step == old(step) && data == old(data) && !isLoading
      ensures r == Submitted(true)
    {
      isLoading := true;
      r := Submitted(true);
      isLoading := false;
    }

    /** The Previous button, shown only after the first step. */
    method Previous()
      requires Valid()
      modifies this
      ensures Valid() && data == old(data) && isLoading == old(isLoading)
      ensures step == if old(step) > 1 then old(step) - 1 else old(step)
    {
      if step > 1 {
        step := step - 1;
      }
    }

    /** Filling in a field (`handleInputChange`, `handleFileUpload`). */
    method Enter(d: KycData)
      requires Valid()
      modifies this
      ensures Valid() && data == d && step == old(step) && isLoading == old(isLoading)
    {
      data := d;
    }
  }
}
