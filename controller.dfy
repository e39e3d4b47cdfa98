/**
 * The two page controllers. `EmotionForm` drives the class -> animal -> sound
 * form and its result lookup; `CallForForm` drives the simpler animal -> sound
 * form. Each event handler is a method; a network call is the `Request` the
 * method returns, and its reply (or its failure) is a later method call.
 */
module Controller {
  import opened Wrappers
  import opened Seqs
  import opened Dom
  import opened Protocol

  const EnglishPlaceholder := Choice("", "-- Select English Name --")
  const ScientificPlaceholder := Choice("", "-- Select Scientific Name --")
  const SelectAnimalFirst := Choice("", "Select animal first")
  const LoadingSounds := Choice("", "Loading sounds...")
  const SelectSound := Choice("", "-- Select Sound --")
  const NoSounds := Choice("", "No sounds available")
  const SoundsError := Choice("", "Error loading sounds")

  const AnimalsErrorText := "Error loading animals for this class."
  const InvalidFormText := "Please fill all required fields correctly."
  const LoadingText := "Loading..."
  const NotFoundText := "No information found for this combination."
  const RequestErrorText := "Sorry, there was an error processing your request."

  function EnglishChoice(p: NamePair): Choice { ChoiceOf(p.englishName) }
  function ScientificChoice(p: NamePair): Choice { ChoiceOf(p.scientificName) }

  /** The candidate whose english name is `name` (`a.english_name === name`). */
  function EnglishIs(name: string): NamePair -> bool { (p: NamePair) => p.englishName == name }

  /** The candidate whose scientific name is `name` (`a.scientific_name === name`). */
  function ScientificIs(name: string): NamePair -> bool { (p: NamePair) => p.scientificName == name }

  /**
   * A value taken from a name dropdown rebuilt from `animals` always finds its
   * candidate, so the mirroring branch of a name change is taken; only a
   * dropdown left over from an earlier candidate list can miss.
   */
  lemma ListedNamesFindCandidates(animals: seq<NamePair>, v: string)
    ensures HasValue(Map(animals, EnglishChoice), v) ==> Find(animals, EnglishIs(v)).Some?
    ensures HasValue(Map(animals, ScientificChoice), v) ==> Find(animals, ScientificIs(v)).Some?
  {
    if HasValue(Map(animals, EnglishChoice), v) {
      var i :| 0 <= i < |animals| && Map(animals, EnglishChoice)[i].value == v;
      assert EnglishIs(v)(animals[i]);
    }
    if HasValue(Map(animals, ScientificChoice), v) {
      var i :| 0 <= i < |animals| && Map(animals, ScientificChoice)[i].value == v;
      assert ScientificIs(v)(animals[i]);
    }
  }

  /** Appending the next candidate's option extends the dropdown by one more mapped candidate. */
  lemma AppendedStep(sel: Select, first: Choice, animals: seq<NamePair>, choice: NamePair -> Choice, i: nat, disabled: bool)
    requires i < |animals|
    requires sel == Select([first] + Map(animals[..i], choice), "", disabled)
    ensures Appended(sel, choice(animals[i])) == Select([first] + Map(animals[..i + 1], choice), "", disabled)
  {
    MapPrefixStep(animals, choice, i);
  }

  /**
   * The body of `populateAnimalDropdowns`: both dropdowns are reset to their
   * placeholder and then get, candidate by candidate, an option with that
   * candidate's english and scientific name respectively.
   */
  method FillNameDropdowns(english: Select, scientific: Select, animals: seq<NamePair>)
    returns (e: Select, s: Select)
    ensures e == Select([EnglishPlaceholder] + Map(animals, EnglishChoice), "", english.disabled)
    ensures s == Select([ScientificPlaceholder] + Map(animals, ScientificChoice), "", scientific.disabled)
  {
    e := Replaced(english, [EnglishPlaceholder]);
    s := Replaced(scientific, [ScientificPlaceholder]);
    var i := 0;
    while i < |animals|
      invariant 0 <= i <= |animals|
      invariant e == Select([EnglishPlaceholder] + Map(animals[..i], EnglishChoice), "", english.disabled)
      invariant s == Select([ScientificPlaceholder] + Map(animals[..i], ScientificChoice), "", scientific.disabled)
    {
      AppendedStep(e, EnglishPlaceholder, animals, EnglishChoice, i, english.disabled);
      AppendedStep(s, ScientificPlaceholder, animals, ScientificChoice, i, scientific.disabled);
      e := Appended(e, EnglishChoice(animals[i]));
      s := Appended(s, ScientificChoice(animals[i]));
      i := i + 1;
    }
    assert animals[..i] == animals;
  }

  /** The sound dropdown an empty or absent sound list leaves. */
  const NoSoundsSelect := Select([NoSounds], "", true)

  /** The sound dropdown a failed sound request leaves. */
  const SoundsErrorSelect := Select([SoundsError], "", true)

  /** The sound dropdown `resetSoundsAndValidation` leaves. */
  const ResetSoundSelect := Select([SelectAnimalFirst], "", true)

  class EmotionForm {
    /** The candidate list of the last animals reply (`currentAnimals`). */
    var currentAnimals: seq<NamePair>
    var selectedEnglishName: string
    var selectedScientificName: string
    var classSelect: Select
    var englishSelect: Select
    var scientificSelect: Select
    var soundSelect: Select
    var submitDisabled: bool
    var result: Panel

    /** `isFormValid`: a class, at least one name, and a sound chosen from an enabled sound dropdown. */
    predicate IsFormValid()
      reads this
    {
      && classSelect.value != ""
      && (selectedEnglishName != "" || selectedScientificName != "")
      && soundSelect.value != ""
      && !soundSelect.disabled
    }

    /** The page as rendered, followed by the initial `checkFormValidation()`. */
    constructor (classSelect: Select, englishSelect: Select, scientificSelect: Select, soundSelect: Select, result: Panel)
      ensures this.classSelect == classSelect && this.englishSelect == englishSelect
      ensures this.scientificSelect == scientificSelect && this.soundSelect == soundSelect
      ensures this.result == result
      ensures currentAnimals == [] && selectedEnglishName == "" && selectedScientificName == ""
      ensures submitDisabled && !IsFormValid()
    {
      this.classSelect := classSelect;
      this.englishSelect := englishSelect;
      this.scientificSelect := scientificSelect;
      this.soundSelect := soundSelect;
      this.result := result;
      currentAnimals := [];
      selectedEnglishName := "";
      selectedScientificName := "";
      submitDisabled := true;
      new;
      CheckFormValidation();
    }

    // -------------------------------------------------------------------------
    // Helpers of the page script
    // -------------------------------------------------------------------------

    /** `checkFormValidation`: the submit button is disabled exactly when the form is not valid. */
    method CheckFormValidation()
      modifies this`submitDisabled
      ensures submitDisabled == !IsFormValid()
    {
      submitDisabled := !IsFormValid();
    }

    method ShowResult(content: Content, kind: Kind)
      modifies this`result
      ensures result == Shown(content, kind)
    {
      result := Shown(content, kind);
    }

    method HideResult()
      modifies this`result
      ensures result == Hidden(old(result))
    {
      result := Hidden(result);
    }

    method EnableAnimalFields()
      modifies this`englishSelect, this`scientificSelect
      ensures englishSelect == old(englishSelect).(disabled := false)
      ensures scientificSelect == old(scientificSelect).(disabled := false)
    {
      englishSelect := englishSelect.(disabled := false);
      scientificSelect := scientificSelect.(disabled := false);
    }

    method DisableAnimalFields()
      modifies this`englishSelect, this`scientificSelect
      ensures englishSelect == old(englishSelect).(disabled := true)
      ensures scientificSelect == old(scientificSelect).(disabled := true)
    {
      englishSelect := englishSelect.(disabled := true);
      scientificSelect := scientificSelect.(disabled := true);
    }

    /**
     * `populateAnimalDropdowns`: each name dropdown becomes its placeholder
     * followed by one option per candidate, in candidate order.
     */
    method PopulateAnimalDropdowns()
      modifies this`englishSelect, this`scientificSelect
      ensures englishSelect == Select([EnglishPlaceholder] + Map(currentAnimals, EnglishChoice), "", old(englishSelect.disabled))
      ensures scientificSelect == Select([ScientificPlaceholder] + Map(currentAnimals, ScientificChoice), "", old(scientificSelect.disabled))
      ensures |englishSelect.options| == |scientificSelect.options| == |currentAnimals| + 1
    {
      englishSelect, scientificSelect := FillNameDropdowns(englishSelect, scientificSelect, currentAnimals);
    }

    /** `resetAnimalFields`: both name values and both selected names become "". */
    method ResetAnimalFields()
      modifies this`englishSelect, this`scientificSelect, this`selectedEnglishName, this`selectedScientificName
      ensures englishSelect == old(englishSelect).(value := "")
      ensures scientificSelect == old(scientificSelect).(value := "")
      ensures selectedEnglishName == "" && selectedScientificName == ""
    {
      englishSelect := Assigned(englishSelect, "");
      scientificSelect := Assigned(scientificSelect, "");
      selectedEnglishName := "";
      selectedScientificName := "";
    }

    /**
     * `resetSoundsAndValidation`: the sound dropdown holds only "Select animal
     * first" and is disabled, which makes the form invalid and disables submit;
     * the result is hidden.
     */
    method ResetSoundsAndValidation()
      modifies this`soundSelect, this`submitDisabled, this`result
      ensures soundSelect == ResetSoundSelect
      ensures submitDisabled && !IsFormValid()
      ensures result == Hidden(old(result))
    {
      soundSelect := Replaced(soundSelect, [SelectAnimalFirst]).(disabled := true);
      CheckFormValidation();
      HideResult();
    }

    /**
     * `loadSounds`: with both names and a class chosen, the sound dropdown shows
     * "Loading sounds..." and the sounds are requested for exactly those three
     * values; otherwise nothing happens.
     */
    method LoadSounds() returns (req: Request)
      modifies this`soundSelect
      ensures selectedEnglishName != "" && selectedScientificName != "" && classSelect.value != "" ==>
        && soundSelect == Replaced(old(soundSelect), [LoadingSounds])
        && req == SoundsFor(selectedEnglishName, selectedScientificName, classSelect.value)
      ensures !(selectedEnglishName != "" && selectedScientificName != "" && classSelect.value != "") ==>
        soundSelect == old(soundSelect) && req == NoRequest
    {
      if selectedEnglishName != "" && selectedScientificName != "" && classSelect.value != "" {
        soundSelect := Replaced(soundSelect, [LoadingSounds]);
        req := SoundsFor(selectedEnglishName, selectedScientificName, classSelect.value);
      } else {
        req := NoRequest;
      }
    }

    // -------------------------------------------------------------------------
    // Events
    // -------------------------------------------------------------------------

    /**
     * The class dropdown changed to `v`. A class enables both name dropdowns and
     * requests its animals; no class disables them and forgets the candidates.
     * Either way the names are cleared, the sounds reset and the result hidden;
     * the name options are left as they were.
     */
    method ClassChanged(v: string) returns (req: Request)
      modifies this
      ensures classSelect == old(classSelect).(value := v)
      ensures req == if v != "" then AnimalsByClass(v) else NoRequest
      ensures currentAnimals == if v != "" then old(currentAnimals) else []
      ensures englishSelect == old(englishSelect).(value := "", disabled := v == "")
      ensures scientificSelect == old(scientificSelect).(value := "", disabled := v == "")
      ensures selectedEnglishName == "" && selectedScientificName == ""
      ensures soundSelect == ResetSoundSelect
      ensures submitDisabled && !IsFormValid()
      ensures result == Hidden(old(result))
    {
      classSelect := classSelect.(value := v);
      if v != "" {
        EnableAnimalFields();
        req := AnimalsByClass(v);
      } else {
        DisableAnimalFields();
        currentAnimals := [];
        req := NoRequest;
      }
      ResetAnimalFields();
      ResetSoundsAndValidation();
    }

    /**
     * The animals reply: `data.animals`, or nothing when absent, becomes the
     * candidate list and both name dropdowns are rebuilt from it.
     */
    method OnAnimalsReply(animals: Option<seq<NamePair>>)
      modifies this`currentAnimals, this`englishSelect, this`scientificSelect
      ensures currentAnimals == animals.GetOr([])
      ensures englishSelect == Select([EnglishPlaceholder] + Map(currentAnimals, EnglishChoice), "", old(englishSelect.disabled))
      ensures scientificSelect == Select([ScientificPlaceholder] + Map(currentAnimals, ScientificChoice), "", old(scientificSelect.disabled))
      ensures |englishSelect.options| == |scientificSelect.options| == |currentAnimals| + 1
    {
      currentAnimals := animals.GetOr([]);
      PopulateAnimalDropdowns();
    }

    /** The animals request failed. */
    method OnAnimalsError()
      modifies this`result
      ensures result == Shown(Message(AnimalsErrorText), Error)
    {
      ShowResult(Message(AnimalsErrorText), Error);
    }

    /**
     * The english dropdown changed to `v`. A name is recorded; when a candidate
     * has it, the first such candidate's scientific name is mirrored into the
     * state and the scientific dropdown, and its sounds are loaded. No name
     * clears the english name and resets the sounds.
     */
    method EnglishChanged(v: string) returns (req: Request)
      modifies this`englishSelect, this`scientificSelect, this`selectedEnglishName, this`selectedScientificName
      modifies this`soundSelect, this`submitDisabled, this`result
      ensures englishSelect == old(englishSelect).(value := v)
      ensures v == "" ==>
        && selectedEnglishName == "" && selectedScientificName == old(selectedScientificName)
        && scientificSelect == old(scientificSelect)
        && soundSelect == ResetSoundSelect && submitDisabled && !IsFormValid()
        && result == Hidden(old(result)) && req == NoRequest
      ensures v != "" ==> selectedEnglishName == v && submitDisabled == old(submitDisabled) && result == old(result)
      ensures v != "" && Find(currentAnimals, EnglishIs(v)).None? ==>
        && selectedScientificName == old(selectedScientificName) && scientificSelect == old(scientificSelect)
        && soundSelect == old(soundSelect) && req == NoRequest
      ensures v != "" && Find(currentAnimals, EnglishIs(v)).Some? ==>
        && (exists i :: IsFirst(currentAnimals, EnglishIs(v), i) &&
                        currentAnimals[i] == NamePair(selectedEnglishName, selectedScientificName))
        && scientificSelect == Assigned(old(scientificSelect), selectedScientificName)
        && (selectedScientificName != "" && classSelect.value != "" ==>
              soundSelect == Replaced(old(soundSelect), [LoadingSounds]) &&
              req == SoundsFor(selectedEnglishName, selectedScientificName, classSelect.value))
        && (selectedScientificName == "" || classSelect.value == "" ==>
              soundSelect == old(soundSelect) && req == NoRequest)
    {
      englishSelect := englishSelect.(value := v);
      if v != "" {
        selectedEnglishName := v;
        var animal := Find(currentAnimals, EnglishIs(v));
        if animal.Some? {
          selectedScientificName := animal.value.scientificName;
          scientificSelect := Assigned(scientificSelect, animal.value.scientificName);
          req := LoadSounds();
        } else {
          req := NoRequest;
        }
      } else {
        selectedEnglishName := "";
        ResetSoundsAndValidation();
        req := NoRequest;
      }
    }

    /** The scientific dropdown changed to `v`: the mirror image of `EnglishChanged`. */
    method ScientificChanged(v: string) returns (req: Request)
      modifies this`englishSelect, this`scientificSelect, this`selectedEnglishName, this`selectedScientificName
      modifies this`soundSelect, this`submitDisabled, this`result
      ensures scientificSelect == old(scientificSelect).(value := v)
      ensures v == "" ==>
        && selectedScientificName == "" && selectedEnglishName == old(selectedEnglishName)
        && englishSelect == old(englishSelect)
        && soundSelect == ResetSoundSelect && submitDisabled && !IsFormValid()
        && result == Hidden(old(result)) && req == NoRequest
      ensures v != "" ==> selectedScientificName == v && submitDisabled == old(submitDisabled) && result == old(result)
      ensures v != "" && Find(currentAnimals, ScientificIs(v)).None? ==>
        && selectedEnglishName == old(selectedEnglishName) && englishSelect == old(englishSelect)
        && soundSelect == old(soundSelect) && req == NoRequest
      ensures v != "" && Find(currentAnimals, ScientificIs(v)).Some? ==>
        && (exists i :: IsFirst(currentAnimals, ScientificIs(v), i) &&
                        currentAnimals[i] == NamePair(selectedEnglishName, selectedScientificName))
        && englishSelect == Assigned(old(englishSelect), selectedEnglishName)
        && (selectedEnglishName != "" && classSelect.value != "" ==>
              soundSelect == Replaced(old(soundSelect), [LoadingSounds]) &&
              req == SoundsFor(selectedEnglishName, selectedScientificName, classSelect.value))
        && (selectedEnglishName == "" || classSelect.value == "" ==>
              soundSelect == old(soundSelect) && req == NoRequest)
    {
      scientificSelect := scientificSelect.(value := v);
      if v != "" {
        selectedScientificName := v;
        var animal := Find(currentAnimals, ScientificIs(v));
        if animal.Some? {
          selectedEnglishName := animal.value.englishName;
          englishSelect := Assigned(englishSelect, animal.value.englishName);
          req := LoadSounds();
        } else {
          req := NoRequest;
        }
      } else {
        selectedScientificName := "";
        ResetSoundsAndValidation();
        req := NoRequest;
      }
    }

    /** The sound dropdown changed to `v`: only the submit button is updated. */
    method SoundChanged(v: string)
      modifies this`soundSelect, this`submitDisabled
      ensures soundSelect == old(soundSelect).(value := v)
      ensures submitDisabled == !IsFormValid()
    {
      soundSelect := soundSelect.(value := v);
      CheckFormValidation();
    }

    /**
     * The sounds reply. A non-empty list gives the placeholder followed by the
     * sounds in order, enabled; an empty or absent list gives "No sounds
     * available", disabled. Either way no sound is chosen yet, so submit is
     * disabled.
     */
    method OnSoundsReply(sounds: Option<seq<string>>)
      modifies this`soundSelect, this`submitDisabled
      ensures sounds.GetOr([]) != [] ==> soundSelect == Select([SelectSound] + Map(sounds.GetOr([]), ChoiceOf), "", false)
      ensures sounds.GetOr([]) == [] ==> soundSelect == NoSoundsSelect
      ensures submitDisabled && !IsFormValid()
    {
      var list := sounds.GetOr([]);
      soundSelect := Replaced(soundSelect, [SelectSound]);
      if list != [] {
        var i := 0;
        while i < |list|
          invariant 0 <= i <= |list|
          invariant soundSelect == Select([SelectSound] + Map(list[..i], ChoiceOf), "", old(soundSelect.disabled))
        {
          MapPrefixStep(list, ChoiceOf, i);
          soundSelect := Appended(soundSelect, ChoiceOf(list[i]));
          i := i + 1;
        }
        assert list[..i] == list;
        soundSelect := soundSelect.(disabled := false);
      } else {
        soundSelect := Replaced(soundSelect, [NoSounds]).(disabled := true);
      }
      CheckFormValidation();
    }

    /** The sounds request failed. */
    method OnSoundsError()
      modifies this`soundSelect, this`submitDisabled
      ensures soundSelect == SoundsErrorSelect
      ensures submitDisabled && !IsFormValid()
    {
      soundSelect := Replaced(soundSelect, [SoundsError]).(disabled := true);
      CheckFormValidation();
    }

    /**
     * Submit: an invalid form shows the inline error and sends nothing; a valid
     * one shows the loading message and sends the class, both selected names
     * and the sound.
     */
    method Submit() returns (req: Request)
      modifies this`result
      ensures !IsFormValid() ==> req == NoRequest && result == Shown(Message(InvalidFormText), Error)
      ensures IsFormValid() ==>
        && req == ResultFor(classSelect.value, selectedEnglishName, selectedScientificName, soundSelect.value)
        && result == Shown(Message(LoadingText), Loading)
    {
      if !IsFormValid() {
        ShowResult(Message(InvalidFormText), Error);
        req := NoRequest;
        return;
      }
      ShowResult(Message(LoadingText), Loading);
      req := ResultFor(classSelect.value, selectedEnglishName, selectedScientificName, soundSelect.value);
    }

    /**
     * The result reply: a result object gives the success card built from the
     * selection as it is when the reply arrives; no result gives the not-found
     * message.
     */
    method OnResultReply(reply: Option<EmotionResult>)
      modifies this`result
      ensures reply.Some? ==>
        result == Shown(AnalysisCard(selectedEnglishName, selectedScientificName, soundSelect.value,
                                     reply.value.emotionLabel, reply.value.contextTrigger), Success)
      ensures reply.None? ==> result == Shown(Message(NotFoundText), Error)
    {
      match reply
      case Some(r) =>
        ShowResult(AnalysisCard(selectedEnglishName, selectedScientificName, soundSelect.value,
                                r.emotionLabel, r.contextTrigger), Success);
      case None =>
        ShowResult(Message(NotFoundText), Error);
    }

    /** The result request failed. */
    method OnResultError()
      modifies this`result
      ensures result == Shown(Message(RequestErrorText), Error)
    {
      ShowResult(Message(RequestErrorText), Error);
    }
  }

  const SelectAnAnimalFirst := Choice("", "Select an animal first")
  const SelectASound := Choice("", "-- Select a Sound --")
  const MissingSelectionText := "Please select both an animal and a sound."
  const CallForErrorText := "Sorry, there was an error processing your request. Please try again."

  class CallForForm {
    var animalSelect: Select
    var soundSelect: Select
    var result: Panel

    constructor (animalSelect: Select, soundSelect: Select, result: Panel)
      ensures this.animalSelect == animalSelect && this.soundSelect == soundSelect && this.result == result
    {
      this.animalSelect := animalSelect;
      this.soundSelect := soundSelect;
      this.result := result;
    }

    /** `showResult` of this form. */
    method ShowResult(content: Content, kind: Kind)
      modifies this`result
      ensures result == Shown(content, kind)
    {
      result := Shown(content, kind);
    }

    /**
     * The animal dropdown changed to `v`. An animal disables the sound dropdown
     * behind "Loading sounds..." and requests its sounds; no animal disables it
     * behind "Select an animal first". The result is hidden either way.
     */
    method AnimalChanged(v: string) returns (req: Request)
      modifies this`animalSelect, this`soundSelect, this`result
      ensures animalSelect == old(animalSelect).(value := v)
      ensures v != "" ==> soundSelect == Select([LoadingSounds], "", true) && req == SoundsByAnimal(v)
      ensures v == "" ==> soundSelect == Select([SelectAnAnimalFirst], "", true) && req == NoRequest
      ensures result == Hidden(old(result))
    {
      animalSelect := animalSelect.(value := v);
      if v != "" {
        soundSelect := Replaced(soundSelect, [LoadingSounds]).(disabled := true);
        req := SoundsByAnimal(v);
      } else {
        soundSelect := Replaced(soundSelect, [SelectAnAnimalFirst]).(disabled := true);
        req := NoRequest;
      }
      result := Hidden(result);
    }

    /** The sounds reply: as in `EmotionForm.OnSoundsReply`, with this form's placeholder. */
    method OnSoundsReply(sounds: Option<seq<string>>)
      modifies this`soundSelect
      ensures sounds.GetOr([]) != [] ==> soundSelect == Select([SelectASound] + Map(sounds.GetOr([]), ChoiceOf), "", false)
      ensures sounds.GetOr([]) == [] ==> soundSelect == NoSoundsSelect
    {
      var list := sounds.GetOr([]);
      soundSelect := Replaced(soundSelect, [SelectASound]);
      if list != [] {
        var i := 0;
        while i < |list|
          invariant 0 <= i <= |list|
          invariant soundSelect == Select([SelectASound] + Map(list[..i], ChoiceOf), "", old(soundSelect.disabled))
        {
          MapPrefixStep(list, ChoiceOf, i);
          soundSelect := Appended(soundSelect, ChoiceOf(list[i]));
          i := i + 1;
        }
        assert list[..i] == list;
        soundSelect := soundSelect.(disabled := false);
      } else {
        soundSelect := Replaced(soundSelect, [NoSounds]).(disabled := true);
      }
    }

    /** The sounds request failed, or answered with an error status. */
    method OnSoundsError()
      modifies this`soundSelect
      ensures soundSelect == SoundsErrorSelect
    {
      soundSelect := Replaced(soundSelect, [SoundsError]).(disabled := true);
    }

    /**
     * Submit: without both an animal and a sound it shows an error and sends
     * nothing; otherwise it shows the loading message and sends the pair.
     */
    method Submit() returns (req: Request)
      modifies this`result
      ensures animalSelect.value == "" || soundSelect.value == "" ==>
        req == NoRequest && result == Shown(Message(MissingSelectionText), Error)
      ensures animalSelect.value != "" && soundSelect.value != "" ==>
        req == CallFor(animalSelect.value, soundSelect.value) && result == Shown(Message(LoadingText), Loading)
    {
      var selectedAnimal := animalSelect.value;
      var selectedSound := soundSelect.value;
      if selectedAnimal == "" || selectedSound == "" {
        ShowResult(Message(MissingSelectionText), Error);
        req := NoRequest;
        return;
      }
      ShowResult(Message(LoadingText), Loading);
      req := CallFor(selectedAnimal, selectedSound);
    }

    /**
     * The reply to the request `sent`: a non-empty `call_for` gives the success
     * card for the animal and sound captured when it was sent; otherwise the
     * not-found message.
     */
    method OnCallForReply(sent: Request, callFor: string)
      requires sent.CallFor?
      modifies this`result
      ensures callFor != "" ==> result == Shown(CallForCard(sent.animal, sent.sound, callFor), Success)
      ensures callFor == "" ==> result == Shown(Message(NotFoundText), Error)
    {
      if callFor != "" {
        ShowResult(CallForCard(sent.animal, sent.sound, callFor), Success);
      } else {
        ShowResult(Message(NotFoundText), Error);
      }
    }

    /** The call-for request failed, or answered with an error status. */
    method OnCallForError()
      modifies this`result
      ensures result == Shown(Message(CallForErrorText), Error)
    {
      ShowResult(Message(CallForErrorText), Error);
    }
  }

  /**
   * The walk through the form: class "Mammal", its one animal, its one sound,
   * and the result card built from the reply.
   */
  method SelectionWalkthrough() {
    var f := new EmotionForm(Select([Choice("", "-- Select Class --"), ChoiceOf("Mammal")], "", false),
                             Select([EnglishPlaceholder], "", true), Select([ScientificPlaceholder], "", true),
                             ResetSoundSelect, Panel(Message(""), "", false));
    var req := f.ClassChanged("Mammal");
    assert req == AnimalsByClass("Mammal");
    f.OnAnimalsReply(Some([NamePair("Lion", "Panthera leo")]));
    assert f.scientificSelect.options == [ScientificPlaceholder, ChoiceOf("Panthera leo")];
    assert HasValue(f.scientificSelect.options, "Panthera leo") by {
      assert f.scientificSelect.options[1].value == "Panthera leo";
    }
    req := f.EnglishChanged("Lion");
    assert f.selectedScientificName == "Panthera leo" && f.scientificSelect.value == "Panthera leo";
    assert req == SoundsFor("Lion", "Panthera leo", "Mammal");
    ResultWalkthrough(f);
  }

  /**
   * The rest of the walk: the sounds arrive, "Roar" is chosen, the lookup is
   * sent with the selected pair, and the reply becomes the result card.
   */
  method ResultWalkthrough(f: EmotionForm)
    requires f.classSelect.value == "Mammal"
    requires f.selectedEnglishName == "Lion" && f.selectedScientificName == "Panthera leo"
    modifies f
  {
    f.OnSoundsReply(Some(["Roar"]));
    assert f.submitDisabled;
    f.SoundChanged("Roar");
    assert !f.submitDisabled;
    var req := f.Submit();
    assert req == ResultFor("Mammal", "Lion", "Panthera leo", "Roar");
    f.OnResultReply(Some(EmotionResult("Dominance", "Territorial display")));
    assert f.result == Panel(AnalysisCard("Lion", "Panthera leo", "Roar", "Dominance", "Territorial display"), "", true);
  }

  /**
   * The page reaches a valid form with submit enabled: class "Bird", its two
   * animals, "Crow" picked, its one sound arrives and is chosen. From there,
   * `AnotherAnimalWhileValid` picks the other animal and finds submit still
   * enabled on an invalid form.
   */
  method SubmitEnabledWhileSoundsLoad() {
    var f := new EmotionForm(Select([Choice("", "-- Select Class --"), ChoiceOf("Bird")], "", false),
                             Select([EnglishPlaceholder], "", true), Select([ScientificPlaceholder], "", true),
                             ResetSoundSelect, Panel(Message(""), "", false));
    var req := f.ClassChanged("Bird");
    assert req == AnimalsByClass("Bird");
    var crow, owl := NamePair("Crow", "Corvus"), NamePair("Owl", "Strix");
    f.OnAnimalsReply(Some([crow, owl]));
    CrowWithItsSound(f);
  }

  /** With the two birds as candidates, "Crow" is picked and its one sound arrives and is chosen. */
  method CrowWithItsSound(f: EmotionForm)
    requires f.currentAnimals == [NamePair("Crow", "Corvus"), NamePair("Owl", "Strix")]
    requires f.classSelect.value == "Bird"
    modifies f
  {
    var crow := NamePair("Crow", "Corvus");
    assert Find(f.currentAnimals, EnglishIs("Crow")) == Some(crow);
    var req := f.EnglishChanged("Crow");
    assert req == SoundsFor("Crow", "Corvus", "Bird");
    f.OnSoundsReply(Some(["Caw"]));
    assert HasValue(f.soundSelect.options, "Caw") by {
      assert f.soundSelect.options[1].value == "Caw";
    }
    f.SoundChanged("Caw");
    assert f.IsFormValid() && !f.submitDisabled;
    AnotherAnimalWhileValid(f);
  }

  /**
   * Choosing another animal of a valid form replaces the sound options with
   * "Loading sounds..." but does not re-run the validation: the form is no
   * longer valid while the submit button stays enabled, and a submit then
   * shows the inline error.
   */
  method AnotherAnimalWhileValid(f: EmotionForm)
    requires f.currentAnimals == [NamePair("Crow", "Corvus"), NamePair("Owl", "Strix")]
    requires f.selectedEnglishName == "Crow" && f.classSelect.value == "Bird"
    requires f.IsFormValid() && !f.submitDisabled
    modifies f
  {
    var owl := NamePair("Owl", "Strix");
    assert Find([owl], EnglishIs("Owl")) == Some(owl);
    assert Find(f.currentAnimals, EnglishIs("Owl")) == Some(owl);
    var req := f.EnglishChanged("Owl");
    assert f.selectedScientificName == "Strix";
    assert req == SoundsFor("Owl", "Strix", "Bird");
    assert !f.IsFormValid() && !f.submitDisabled;
    req := f.Submit();
    assert req == NoRequest && f.result.content == Message(InvalidFormText);
  }
}
