/**
 * The constant tables of the configuration module: the unified schema of
 * the LLM mapper, the confidence thresholds and
 * the table of known field-name variations. Dictionary order is kept as
 * sequence order, because the mapper's first match wins.
 */
module Config {

  /** Keys of UNIFIED_SCHEMA, in declaration order. Every value of that
      table is the type tag "str". */
  const UnifiedSchema: seq<string> := [
    "customer_id", "first_name", "last_name", "full_name", "dob", "gender",
    "national_id", "email", "phone", "address", "country", "updated_at"
  ]

  /** CONFIDENCE_THRESHOLDS. */
  const HighConfidence: real := 0.9
  const MediumConfidence: real := 0.7
  const LowConfidence: real := 0.5

  /** FIELD_VARIATIONS: unified field and its known source spellings. */
  const FieldVariations: seq<(string, seq<string>)> := [
    ("customer_id", ["cust_id", "client_id", "user_id", "emp_id", "id", "customer_number"]),
    ("first_name", ["fname", "f_name", "given_name", "firstname"]),
    ("last_name", ["lname", "l_name", "family_name", "surname", "lastname"]),
    ("full_name", ["full_nm", "complete_name", "customer_name", "employee_name"]),
    ("dob", ["birth_dt", "date_of_birth", "birthdate", "birth_date"]),
    ("gender", ["sex", "gender_code"]),
    ("national_id", ["id_no", "ssn", "tax_id", "social_security", "national_identification"]),
    ("email", ["email_addr", "email_address", "contact_email", "work_email"]),
    ("phone", ["phone_num", "telephone", "mobile_phone", "cell_number", "phone_number"]),
    ("address", ["street_address", "mailing_address", "shipping_address", "home_address", "residential_address"]),
    ("country", ["country_code", "nation", "country_name", "citizenship"]),
    ("updated_at", ["last_update", "modified_date", "last_modified", "timestamp", "record_updated"])
  ]
}
