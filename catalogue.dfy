/** Enumerations and patterns the services consult but that are defined in
    files outside this model: the country codes, medical aids and languages,
    and the email and photo MIME-type patterns. They are parameters here. */
module Catalogue {

  datatype Catalogue = Catalogue(
    /** The values of COUNTRY_CODE. */
    countryCodes: set<string>,
    /** The members of MEDICAL_AID. */
    medicalAids: set<int>,
    /** The members of LANGUAGE. */
    languages: set<int>,
    /** COUNTRY_CODE.SouthAfrica. */
    southAfrica: string,
    /** LANGUAGE.English. */
    english: int,
    /** The verdict of `emailValidationPattern.test`. */
    isEmail: string -> bool,
    /** The verdict of `PHOTO_ALLOWED_EXTENSIONS.test`. */
    isPhotoType: string -> bool)

  /** What the enumerations guarantee: South Africa and English are members,
      and no country code is the empty string. */
  predicate Consistent(c: Catalogue) {
    c.southAfrica in c.countryCodes && c.english in c.languages && "" !in c.countryCodes
  }
}
