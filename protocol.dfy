/**
 * The JSON shapes exchanged between the page and the lookup service, and the
 * requests the page sends. A request is a value the controller returns; the
 * reply arrives later as a separate event.
 */
module Protocol {

  /** `{english_name, scientific_name}`: one candidate animal. */
  datatype NamePair = NamePair(englishName: string, scientificName: string)

  /** `{emotion_label, context_trigger}`: the outcome of a result lookup. */
  datatype EmotionResult = EmotionResult(emotionLabel: string, contextTrigger: string)

  /** The key `sort_values('animal')` orders candidates by. */
  function EnglishOf(p: NamePair): string { p.englishName }

  datatype Request =
    | NoRequest
      /** `GET /get_animals_by_class/<class>` */
    | AnimalsByClass(animalClass: string)
      /** `POST /get_sounds` with `{english_name, scientific_name, class}` */
    | SoundsFor(englishName: string, scientificName: string, animalClass: string)
      /** `POST /get_result` with `{class, english_name, scientific_name, sound}` */
    | ResultFor(animalClass: string, englishName: string, scientificName: string, sound: string)
      /** `GET /get_sounds/<animal>` */
    | SoundsByAnimal(animal: string)
      /** `POST /get_call_for` with `{animal, sound}` */
    | CallFor(animal: string, sound: string)
}
