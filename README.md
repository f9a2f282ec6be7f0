# Pakistani real-estate listings pipeline — a Dafny model

This project models the core of a small pipeline that gathers property listings from
Pakistani real-estate websites, normalises them, and stores them in a relational database.
The model covers five parts:

- **The zameen.com scraper.**
  - URL building per city and page.
  - The request loop: user-agent rotation, random pauses, and exponential back-off on HTTP 429.
  - The page walk and the city sweep.
  - Parsing of price, location and property-details text.
  - Unit conversion to square feet.
- **The data cleaner.**
  - Price normalisation with its crore, lakh, thousand, k and million words.
  - Area normalisation with its unit table.
  - The property-type table.
  - Location, contact and title cleaning.
  - The price per square foot and the quality score.
  - The validity filter and duplicate removal by fingerprint.
- **The database access layer.**
  - The content hash.
  - Single insert with its duplicate check and rollback.
  - Bulk insert, under which a whole batch commits or none of it does.
  - The filtered, newest-first search.
  - The scraping-session rows and their updates.
- **The table definitions.** Column defaults and NOT NULL columns, the session defaults, and
  the connection string per database type.
- **The coordinator.** `scrape_data` runs one session per known website. `clean_and_save_data`
  cleans the records, generates the cleaning report (whose TypeError stops the save) and
  bulk-inserts them.

Modules and files:

| file | module | models |
|---|---|---|
| basics.dfy | `Basics` | `Option` and `Result`, and powers of two |
| text.dfy | `TextOps` | `str.lower`, `strip`, `title` and `split`, plus the regular-expression scans |
| records.dfy | `Records` | listing dictionaries as `map<Field, Value>`; Python truthiness, `str()` and `dict.get` |
| settings.dfy | `Settings` | the configuration constants |
| cleaner.dfy | `Cleaner` | data_cleaning/cleaner.py |
| cleaner_facts.dfy | `CleanerFacts` | properties of the cleaner's normalisers |
| reading_facts.dfy | `ReadingFacts` | how the normalisers see text of the form "digits words" |
| price_values.dfy | `PriceReadings`, `PriceValues` | the values `normalize_price` reads back from such text |
| area_values.dfy | `AreaValues` | the values `normalize_area` reads back, unit by unit |
| location_values.dfy | `LocationValues` | the values of `clean_location_data` and `clean_text` |
| report.dfy | `CleaningReport` | `generate_cleaning_report`: its counts and when its statistics raise |
| zameen_parsing.dfy | `ZameenParsing` | the pure text functions of scrapers/zameen_scraper.py |
| zameen_client.dfy | `ZameenClient` | the `ZameenScraper` object: its request loop, page walk and city sweep |
| dbmodels.dfy | `DbModels` | database/models.py |
| store.dfy | `Store` | the specification functions of database/operations.py |
| database.dfy | `Database` | the `DatabaseOperations` object: listing table and session table |
| search.dfy | `Search` | `search_properties` |
| coordinator.dfy | `Coordinator` | main.py |

The model uses one modelling style per kind of code:

- **Methods on state.** Where the source mutates state, the model does too:
  - the scraper object is a class holding its rotation counter and a log of what it did;
  - the database is a class holding the listing and session tables;
  - `remove_duplicates` and `bulk_insert_properties` stamp the records of an array in place;
  - the coordinator's loops are `for` loops.
- **Specification functions.** Each method is proved equal to a recursive specification
  function, and the lemmas state the properties of that function.
- **Parameters for the environment.** What the program only observes is passed in:
  - the network is a function from the requests sent so far to the reply;
  - the clock is a `now` argument;
  - `sha256`, `str(float)` and `str(datetime)` are uninterpreted functions in `Runtime`;
  - each website's scrape is a function from the website and the page count to the records
    returned, or to "raised".

Where the documentation of the system and its code disagree, the model follows the code:

- **Unreachable metre entries.** The area table lists `sq m` and `sq meter` at 10.764, but
  `normalize_area` deletes the spaces of the unit before the lookup. Those two entries can
  never be found, so metres convert with factor 1 (`CleanerFacts.UnitFactors`).
- **No delimiter in the content hash.** The hash concatenates its fields without a
  delimiter, so moving text between title and city keeps the hash
  (`Store.ContentHashNoDelimiter`).
- **Two different fingerprints.** The cleaner's duplicate fingerprint and the store's content
  hash use different key tuples (cleaner.py:292-298 against operations.py:27-33).
- **Twins in one batch are both inserted.** Two records with the same hash in one bulk batch
  are both inserted: the session does not autoflush and the hash column is not unique
  (`Store.BulkKeepsTwins`).
- **Counts after a failed bulk insert.** When a bulk insert fails, it returns the counts
  gathered before the error, not zero, and the table stays as it was.
- **Two unreachable categories.** The type table's `farmhouse` and `penthouse` categories are
  unreachable. Every one of their synonyms contains `house`, and `house` is tried first
  (`CleanerFacts.FarmhouseAndPenthouseUnreachable`).

## Model

| member | source | states |
|---|---|---|
| Cleaner.NormalizePrice | data_cleaning/cleaner.py:99-127 | a falsy value gives None; an int or float is returned unchanged; a price read from text is never negative |
| Cleaner.NormalizePriceText | data_cleaning/cleaner.py:104-127 | a price read from text is never negative |
| Cleaner.AmountOf | data_cleaning/cleaner.py:110-122 | the scaled or plain amount found in cleaned text is never negative |
| Cleaner.MagnitudeMatch | data_cleaning/cleaner.py:110-117 | the number found before a magnitude word is never negative |
| CleanerFacts.PriceCleanDigits | data_cleaning/cleaner.py:106-107 | removing every character other than digits, dots, commas, letters and spaces keeps every digit and adds none |
| CleanerFacts.MagnitudeNeedsDigit | data_cleaning/cleaner.py:110-117 | no magnitude word matches in text without a digit |
| CleanerFacts.PriceFoundIff | data_cleaning/cleaner.py:99-127 | a price string normalises to a number exactly when it holds a digit, and that number is never negative |
| CleanerFacts.AmountFoundIff | data_cleaning/cleaner.py:110-122 | cleaned price text yields an amount exactly when it holds a digit |
| CleanerFacts.MagnitudeSkip | data_cleaning/cleaner.py:110-117 | magnitude words that do not apply are passed over in table order |
| CleanerFacts.MagnitudeNoneApplies | data_cleaning/cleaner.py:110-117 | when no magnitude word applies, no scaling happens |
| CleanerFacts.AmountOfScaled | data_cleaning/cleaner.py:110-117 | when the k-th magnitude word is the first that applies, the price is the number before it times its multiplier |
| CleanerFacts.AmountOfPlain | data_cleaning/cleaner.py:119-122 | with no magnitude word present, the price is the first decimal number after the commas are removed |
| CleanerFacts.PriceMultipliers | data_cleaning/cleaner.py:14-20 | the magnitude table in order: crore 10^7, lakh 10^5, thousand 1000, k 1000, million 10^6 |
| PriceReadings.NumberBeforeReading | data_cleaning/cleaner.py:111-116 | in "digits word" the word occurs and the number matched before it is the decimal value of the digits |
| PriceReadings.GroupedDigitsDeleted | data_cleaning/cleaner.py:120 | removing the commas from digits grouped by commas leaves a non-empty digit string |
| PriceReadings.DigitsRead | data_cleaning/cleaner.py:120-122 | the first number of a digit string is its decimal value |
| PriceValues.PriceOfMagnitude | data_cleaning/cleaner.py:99-117 | "n crore", "n lakh", "n thousand", "n k" and "n million" normalise to n times the word's multiplier |
| PriceValues.MagnitudeReading | data_cleaning/cleaner.py:104-117 | any digit string followed by a space and a magnitude word normalises to the digits' value times that word's multiplier |
| PriceValues.PriceOfGroupedDigits | data_cleaning/cleaner.py:119-122 | digits grouped by commas, such as "1,234", normalise to the value of the digits without the commas |
| Cleaner.NormalizeArea | data_cleaning/cleaner.py:129-157 | a falsy value gives None; an int or float is returned unchanged; an area read from text is never negative |
| Cleaner.AreaFactor | data_cleaning/cleaner.py:146 | every factor, including the default 1 for an unknown unit, is positive |
| AreaValues.SpellingFactor | data_cleaning/cleaner.py:141-146 | the factor each matched unit gets once its spaces are deleted: marla 272.25, kanal 5445, the square-feet spellings 1, "sq m" 1 (its key is not found), yard 9, acre 43560 |
| AreaValues.UnitRead | data_cleaning/cleaner.py:138-139 | where a unit spelling starts, the unit alternation captures it; for "sq meter" it captures the earlier alternative "sq m" |
| AreaValues.SizedReading | data_cleaning/cleaner.py:138-142 | in "digits unit" the pattern matches with the digits' value as size and the unit text as unit |
| AreaValues.UnitReading | data_cleaning/cleaner.py:129-147 | any digit string followed by a space and a unit spelling normalises to the digits' value times the unit's factor |
| AreaValues.AreaOfUnit | data_cleaning/cleaner.py:129-147 | "n u" for every unit spelling u normalises to n times the factor of the captured unit: "5 marla" 1361.25, "1 kanal" 5445, "10 sq meter" 10 |
| AreaValues.SearchAreaNone | data_cleaning/cleaner.py:138-139 | with no unit after any number, the pattern has no match |
| AreaValues.AreaNoUnit | data_cleaning/cleaner.py:134-152 | with no unit after any number of the cleaned text, the area is its first number, taken as square feet |
| AreaValues.NoUnitWithoutLetter | data_cleaning/cleaner.py:138 | every unit starts with a letter, so none is matched where there is none |
| AreaValues.LetterFreeNoUnit | data_cleaning/cleaner.py:138-139 | text without letters has no unit after any number |
| AreaValues.AreaPlain | data_cleaning/cleaner.py:129-152 | the decimal text of n normalises to n |
| CleanerFacts.AreaCleanDigits | data_cleaning/cleaner.py:135 | lower-casing and stripping keep exactly the digits there were |
| CleanerFacts.SearchAreaNeedsDigit | data_cleaning/cleaner.py:138-139 | no area is matched in text without a digit |
| CleanerFacts.AreaFoundIff | data_cleaning/cleaner.py:129-157 | an area string normalises to a number exactly when it holds a digit |
| CleanerFacts.UnitFactors | data_cleaning/cleaner.py:143-146 | marla 272.25, kanal 5445, sqft and squarefeet 1, yard 9, acre 43560; the metre entries 10.764 are unreachable, so metres convert with 1 |
| Cleaner.FirstCategory | data_cleaning/cleaner.py:166-169 | a category found is one of the table's categories |
| CleanerFacts.FirstCategoryWins | data_cleaning/cleaner.py:166-169 | the first category, in table order, with a synonym in the text is the one chosen |
| CleanerFacts.FirstCategoryNone | data_cleaning/cleaner.py:166-171 | no category is chosen exactly when no synonym of any category occurs in the text |
| CleanerFacts.HouseWins | data_cleaning/cleaner.py:159-169 | any type text containing "house" standardises to "House" |
| CleanerFacts.FarmhouseAndPenthouseUnreachable | data_cleaning/cleaner.py:36-44 | the farmhouse and penthouse categories are never chosen |
| CleanerFacts.HouseBehindFarmAndPent | data_cleaning/cleaner.py:37-42 | a text matching a farmhouse or penthouse synonym also matches a house synonym |
| CleanerFacts.SynonymHasHouse | data_cleaning/cleaner.py:41-42 | every farmhouse and penthouse synonym contains "house" |
| LocationValues.LowerTitle | data_cleaning/cleaner.py:177-189 | title-casing changes only letter case, so the lower-cased title is the lower-cased name |
| LocationValues.CanonicalCityFirst | data_cleaning/cleaner.py:188-191 | the first spelling list, in table order, holding the lower-cased name gives the canonical name |
| LocationValues.CanonicalCityNone | data_cleaning/cleaner.py:188-191 | a name in no spelling list is kept |
| LocationValues.CanonicalNonEmpty | data_cleaning/cleaner.py:178-193 | a non-empty city never becomes empty, so it is always stored |
| LocationValues.CitySpellingsDisjoint | data_cleaning/cleaner.py:180-186 | every spelling belongs to one city only |
| LocationValues.CitySpelling | data_cleaning/cleaner.py:177-191 | a city written in any case as one of a city's spellings ("KHI", "krchi") gets that city's canonical name ("Karachi") |
| LocationValues.CityUnknown | data_cleaning/cleaner.py:177-193 | any other city is only title-cased |
| LocationValues.LocationFields | data_cleaning/cleaner.py:176-209 | each location key is present exactly when its stripped text is non-empty; city canonical, area and sector title-cased, address as stripped |
| LocationValues.StrippedFieldError | data_cleaning/cleaner.py:177 | reading and stripping a field fails with an AttributeError exactly when it is present and not a string |
| LocationValues.LocationError | data_cleaning/cleaner.py:173-211 | cleaning the location fails, with an AttributeError, exactly when one of the four fields is present and not a string |
| LocationValues.LocationBuilt | data_cleaning/cleaner.py:173-211 | otherwise the location is built from the four stripped texts |
| LocationValues.LocationValues | data_cleaning/cleaner.py:173-211 | a cleaned location holds each key exactly when the stripped input is non-empty, with the canonical city, the title-cased area and sector, and the stripped address |
| Cleaner.ContactRecord | data_cleaning/cleaner.py:218-238 | the cleaned contact holds only phone, email, agent and seller keys |
| Cleaner.CleanContactInfo | data_cleaning/cleaner.py:213-240 | when it succeeds, the cleaned contact holds only the four contact keys |
| CleanerFacts.CleanedContact | data_cleaning/cleaner.py:213-240 | a phone is kept exactly when it has at least 10 phone characters, and then consists of them; an email is kept exactly when it contains '@', and then is lower case |
| CleanerFacts.ContactFields | data_cleaning/cleaner.py:218-238 | the phone is kept exactly when it has 10 or more digits; the email exactly when it has '@', lower-cased and stripped |
| LocationValues.CleanTextIdentity | data_cleaning/cleaner.py:242-253 | stripped, single-spaced text of allowed characters comes back unchanged |
| LocationValues.CleanTextKeeps | data_cleaning/cleaner.py:242-253 | a non-space character is in the cleaned text exactly when it is in the input and allowed |
| Cleaner.QualityScore | data_cleaning/cleaner.py:269-281 | the score, in hundredths, is at most 100 |
| Cleaner.QualityScoreFrame | data_cleaning/cleaner.py:269-281 | fields outside the important and optional lists do not affect the score |
| Cleaner.QualityScoreMonotone | data_cleaning/cleaner.py:269-281 | setting a field to a truthy value never lowers the score, and strictly raises it for a missing scored field |
| Cleaner.QualityScoreExtremes | data_cleaning/cleaner.py:269-281 | the empty record scores 0, and a record with every scored field present scores 1.00 |
| Cleaner.DivideBy | data_cleaning/cleaner.py:91-92 | the division succeeds exactly when both values convert to numbers |
| Cleaner.PricedAndSized | data_cleaning/cleaner.py:72-76 | keeps every key and sets the normalised price, and the normalised area when a raw area is present |
| Cleaner.Overlay | data_cleaning/cleaner.py:79-88 | keeps every key, sets the type and title, and keeps the price and area already set |
| Cleaner.CleanFields | data_cleaning/cleaner.py:69-88 | fails exactly when the type, location or contact cleaning raises; otherwise sets price, title, type and area to their normalised values and keeps every key |
| Cleaner.CleanSingleProperty | data_cleaning/cleaner.py:67-97 | an error in any cleaning step is returned as an error; a cleaned record keeps every key and carries a quality score |
| Cleaner.CleanedValues | data_cleaning/cleaner.py:72-88 | a cleaned record's price, title, type and area are the normalised values of the input's |
| Cleaner.CleanedKeepsOthers | data_cleaning/cleaner.py:69 | every field the cleaner does not rewrite keeps its value |
| Cleaner.CleanedScore | data_cleaning/cleaner.py:95 | the stored score is the quality score of the cleaned record itself, between 0 and 1 |
| Cleaner.CleanedRate | data_cleaning/cleaner.py:91-92 | with a price and an area present, the price per square foot is their quotient, and the area is non-zero |
| Cleaner.RateAndScore | data_cleaning/cleaner.py:91-95 | keeps every key, adds the score, and sets price per square foot to price over area when both are present |
| Cleaner.Scored | data_cleaning/cleaner.py:95 | adds exactly the score key and keeps every other field; the score is that of the resulting record, between 0 and 1 |
| Cleaner.PerSqft | data_cleaning/cleaner.py:91-92 | fails exactly when price and area are present but one does not convert; otherwise adds only the rate |
| Cleaner.Stamp | data_cleaning/cleaner.py:302 | adds exactly the hash key, holding the record's fingerprint |
| Cleaner.UniqueBy | data_cleaning/cleaner.py:283-308 | deduplication never lengthens the list |
| Cleaner.Unique | data_cleaning/cleaner.py:283-308 | deduplication by the cleaner's fingerprint never lengthens the list |
| Cleaner.UniqueHashesDistinct | data_cleaning/cleaner.py:292-303 | every kept record carries a fingerprint of the input, and no two kept records share one |
| Cleaner.UniqueCoversFingerprints | data_cleaning/cleaner.py:300-303 | every fingerprint of the input is represented among the kept records |
| Cleaner.UniqueKeepsFirsts | data_cleaning/cleaner.py:300-303 | the first record with each fingerprint is kept, stamped |
| Cleaner.UniqueOnlyFirsts | data_cleaning/cleaner.py:300-303 | only first occurrences are kept |
| Cleaner.UniqueInOrder | data_cleaning/cleaner.py:283-308 | the kept records are the stamped first occurrences in input order: the j-th kept record is the record at the j-th first-occurrence position, these positions increase, and every first occurrence has one |
| Cleaner.FirstIndicesIncreasing | data_cleaning/cleaner.py:290-303 | the first-occurrence positions lie in the input and strictly increase |
| Cleaner.FirstIndicesCover | data_cleaning/cleaner.py:290-303 | every first occurrence's position is among them |
| Cleaner.UniqueAtFirstIndices | data_cleaning/cleaner.py:290-303 | there are as many positions as kept records, and each kept record is the stamped first occurrence at its position |
| Cleaner.UniqueStep | data_cleaning/cleaner.py:290-303 | one loop step: the seen set grows by the record's fingerprint, and the record is appended exactly when its fingerprint was not seen |
| Cleaner.RemoveDuplicates | data_cleaning/cleaner.py:283-308 | returns the first occurrences, stamped, and stamps exactly those entries of the array in place |
| Cleaner.CleanValid | data_cleaning/cleaner.py:50-59 | keeps only records that pass the validity check, never more than given |
| Cleaner.Accepted | data_cleaning/cleaner.py:53-59 | a record is kept only when it cleaned without error and is valid |
| Cleaner.CleanEach | data_cleaning/cleaner.py:50-59 | the loop keeps, in order, the cleaned form of each record that cleans without an exception and is valid |
| Cleaner.CleanPropertiesData | data_cleaning/cleaner.py:46-65 | returns the valid cleaned records, deduplicated |
| Cleaner.CleanedListValid | data_cleaning/cleaner.py:46-65 | the cleaned list is no longer than the input, every record in it is valid, and their hashes are pairwise distinct |
| Cleaner.StampKeepsValid | data_cleaning/cleaner.py:255-267 | stamping a fingerprint keeps a record valid |
| CleaningReport.TruthyValues | data_cleaning/cleaner.py:332-343 | the listed values are exactly the truthy values of the key, one per record at most |
| CleaningReport.QualityScores | data_cleaning/cleaner.py:324 | one score per record, 0 where the key is missing |
| CleaningReport.ReportRaisesIff | data_cleaning/cleaner.py:310-353 | the report raises a TypeError exactly when some record's score, truthy price or truthy size is not a number; otherwise it holds the original, cleaned and removed counts |
| CleaningReport.CleanedSpoilsIff | data_cleaning/cleaner.py:69-95 | a cleaned record makes the report raise exactly when its input had no truthy `area_raw` and a truthy `area_size` that is text or a datetime |
| CleaningReport.CleanedAreaSize | data_cleaning/cleaner.py:69-76 | without a truthy `area_raw`, `area_size` is carried over unchanged, present exactly when it was |
| CleaningReport.CleanValidFrom | data_cleaning/cleaner.py:52-59 | every kept record is the cleaned form of some input record |
| CleaningReport.CleanValidHead | data_cleaning/cleaner.py:52-59 | an accepted first input record heads the kept list |
| CleaningReport.CleanedReportRaises | data_cleaning/cleaner.py:310-353 | over the cleaned list, the report raises only because an input had text or a datetime as its `area_size` and no truthy `area_raw` |
| CleaningReport.FirstRawAreaRaises | data_cleaning/cleaner.py:310-353 | such a record, accepted and first, makes the report raise a TypeError |
| Records.KeyStringReadsKeys | data_cleaning/cleaner.py:292-296 | a fingerprint depends only on the fields it names |
| ZameenParsing.BaseUrl | scrapers/zameen_scraper.py:86-94 | every city's base URL is a non-trivial string |
| ZameenParsing.UnknownCityUrl | scrapers/zameen_scraper.py:94 | an unknown city gets Karachi's URLs |
| ZameenParsing.CitySearchUrlInjective | scrapers/zameen_scraper.py:94-99 | different page numbers give different URLs |
| ZameenParsing.ParsePrice | scrapers/zameen_scraper.py:161-186 | a parsed price is never negative |
| ZameenParsing.LeadingAmount | scrapers/zameen_scraper.py:169 | the first `[\d.]+` run read as a float is never negative |
| ZameenParsing.GroupedNumber | scrapers/zameen_scraper.py:179-181 | the first `[\d,]+` run read without commas is never negative |
| ZameenParsing.ParsePriceNeedsDigit | scrapers/zameen_scraper.py:161-186 | a price is parsed only from text holding a digit |
| ZameenParsing.ParsePricePlain | scrapers/zameen_scraper.py:177-181 | the decimal text of n parses back to n |
| ZameenParsing.GroupedDigits | scrapers/zameen_scraper.py:179-181 | a run of digits parses to its decimal value |
| ZameenParsing.AlreadyClean | scrapers/zameen_scraper.py:165 | text already lower-case and free of removed characters is parsed as it is |
| ZameenParsing.LeadingDigits | scrapers/zameen_scraper.py:169 | a leading digit run followed by a non-number character is the leading amount |
| ZameenParsing.PriceOfCrore | scrapers/zameen_scraper.py:168-170 | text with "crore" is its leading amount times 10^7 |
| ZameenParsing.ParsePriceCrore | scrapers/zameen_scraper.py:168-170 | "n crore" parses to n × 10^7 |
| ZameenParsing.PriceOfLakh | scrapers/zameen_scraper.py:171-173 | text with "lakh" and no "crore" is its leading amount times 10^5 |
| ZameenParsing.ParsePriceLakh | scrapers/zameen_scraper.py:171-173 | "n lakh" parses to n × 10^5 |
| ZameenParsing.PriceOfThousand | scrapers/zameen_scraper.py:174-176 | text with a letter k and neither "crore" nor "lakh" is its leading amount times 1000 |
| ZameenParsing.ParsePriceThousands | scrapers/zameen_scraper.py:174-176 | "nk" parses to n × 1000 |
| ZameenParsing.FirstCityIn | scrapers/zameen_scraper.py:197-200 | a city found is listed and occurs in the text; no city found means none occurs |
| ZameenParsing.FirstCityWins | scrapers/zameen_scraper.py:197-200 | the first listed city occurring in the text is chosen |
| ZameenParsing.CityFound | scrapers/zameen_scraper.py:197-200 | when a listed city occurs, the location's city is a listed city |
| ZameenParsing.CityFallback | scrapers/zameen_scraper.py:201-202 | when no listed city occurs, the city is the stripped text after the last comma |
| ZameenParsing.StrippedParts | scrapers/zameen_scraper.py:193 | there is one stripped part per comma-separated piece |
| ZameenParsing.LocationFields | scrapers/zameen_scraper.py:188-212 | city and full address are always set; area exactly when there is a comma; sector exactly when there are two; nothing else |
| ZameenParsing.LocationArea | scrapers/zameen_scraper.py:205-206 | the area is the stripped text before the first comma |
| ZameenParsing.FirstWordIn | scrapers/zameen_scraper.py:219-223 | a type word found is listed and occurs; none found means none occurs |
| ZameenParsing.FirstWordWins | scrapers/zameen_scraper.py:219-223 | the first listed type word occurring in the text is chosen |
| ZameenParsing.SearchCountReadsBack | scrapers/zameen_scraper.py:228-230 | "digits, spaces, word" reads back the digits' value |
| ZameenParsing.SearchCountFound | scrapers/zameen_scraper.py:228-235 | a bedroom or bathroom count is found only where the word and a digit occur |
| ZameenParsing.SearchMeasure | scrapers/zameen_scraper.py:238-243 | a measured size is never negative |
| ZameenParsing.SearchMeasureShape | scrapers/zameen_scraper.py:238-243 | the matched unit is one of the pattern's unit spellings |
| ZameenParsing.DeleteSpacesOfUnit | scrapers/zameen_scraper.py:238-243 | a unit with spaces removed is marla, kanal, sqft or "sq…ft" and holds no space |
| ZameenParsing.ConvertToSqft | scrapers/zameen_scraper.py:248-259 | conversion never shrinks a non-negative size (every factor is at least 1) |
| ZameenParsing.ConvertIgnoresCase | scrapers/zameen_scraper.py:258 | the unit's letter case does not matter |
| ZameenParsing.KanalIsTwentyMarla | scrapers/zameen_scraper.py:250-259 | one kanal converts to twenty marla |
| ZameenParsing.DetailsFields | scrapers/zameen_scraper.py:214-246 | the type is always set; counts only where "bed" or "bath" and a digit occur; raw area, unit and size together, the size being the converted measure |
| ZameenParsing.DetailsKind | scrapers/zameen_scraper.py:219-225 | the type is "Other" or the title-cased listed word found in the text |
| ZameenParsing.HouseDetails | scrapers/zameen_scraper.py:219-223 | a text mentioning "house" is typed House |
| ZameenClient.AgentAt | scrapers/zameen_scraper.py:39 | the rotation picks an agent from the list |
| ZameenClient.BackoffShape | scrapers/zameen_scraper.py:68-79 | after a failed attempt there is at most one wait, of at most 60 × 2^attempt seconds |
| ZameenClient.BackoffTally | scrapers/zameen_scraper.py:68-79 | the back-off adds no request, pause or cool-down |
| ZameenClient.BackoffSlept | scrapers/zameen_scraper.py:68-79 | the back-off sleeps at most 60 × 2^attempt seconds |
| ZameenClient.AttemptsBound | scrapers/zameen_scraper.py:55-82 | at most max_retries + 1 attempts are made, and all of them when no page is returned |
| ZameenClient.AttemptsTally | scrapers/zameen_scraper.py:55-60 | each attempt makes exactly one request after one random pause |
| ZameenClient.AttemptsUrls | scrapers/zameen_scraper.py:60-64 | every request of the loop goes to the given URL, and the earlier log is kept |
| ZameenClient.AttemptsReplies | scrapers/zameen_scraper.py:66-67 | a page is returned exactly for the first 200 reply, and no earlier reply was 200 |
| ZameenClient.AttemptsSleep | scrapers/zameen_scraper.py:68-79 | the back-off sleeps of one request total less than 60 × 2^(max_retries+1) seconds |
| ZameenClient.WalkPages | scrapers/zameen_scraper.py:266-302 | pages are visited in order from the first, never beyond max_pages; earlier records are kept |
| ZameenClient.WalkUrls | scrapers/zameen_scraper.py:268-270 | every request of a walk goes to the city's search URL for a page in range |
| ZameenClient.WalkRequests | scrapers/zameen_scraper.py:268-273 | a walk makes at most max_retries + 1 requests per page and no cool-down |
| ZameenClient.SweepCooldowns | scrapers/zameen_scraper.py:311-327 | one cool-down per city, and every city's records are kept |
| ZameenClient.ZameenScraper.constructor | scrapers/zameen_scraper.py:21-35 | starts with the configured agents, the first agent set, and nothing done |
| ZameenClient.ZameenScraper.RotateUserAgent | scrapers/zameen_scraper.py:37-42 | sets the next agent in rotation and advances the counter |
| ZameenClient.ZameenScraper.RandomDelay | scrapers/zameen_scraper.py:44-48 | records one pause and changes nothing else |
| ZameenClient.ZameenScraper.SendAttempt | scrapers/zameen_scraper.py:56-79 | one attempt: pause, rotate, request, and back off as the reply demands |
| ZameenClient.ZameenScraper.MakeRequest | scrapers/zameen_scraper.py:50-82 | the page, rotation count and log are those of the retry specification, with three retries by default |
| ZameenClient.ZameenScraper.ScrapePropertyListings | scrapers/zameen_scraper.py:261-309 | returns the records of the city's page walk and leaves the walk's state |
| ZameenClient.ZameenScraper.ScrapeAllCities | scrapers/zameen_scraper.py:311-327 | returns the records of the sweep over the configured cities |
| Store.ContentHashReadsKeys | database/operations.py:24-35 | the content hash depends only on its named fields |
| Store.ContentHashNoDelimiter | database/operations.py:27-33 | text moved from the title into the city keeps the hash |
| Store.FindByHash | database/operations.py:60 | a row found has the hash; none found means no row has it |
| Store.WithDefaultsFacts | database/models.py:48-51 | the date and duplicate flag get their defaults when missing; other values are kept |
| Store.ListingRow | database/operations.py:66-91 | the row copies every column of the dictionary and sets hash, score, date and duplicate flag |
| Store.InsertPlan | database/operations.py:51-104 | returns the existing row's id when the hash is stored, adds a complete row under the next id otherwise, and fails when the hash is stored and the title is not a string, or when a new row misses a NOT NULL column |
| Store.InsertIdempotent | database/operations.py:59-63 | inserting the same dictionary again returns the first row's id and adds nothing |
| Store.InsertNonStringTitle | database/operations.py:61-62 | a stored duplicate with a non-string title makes the insert fail |
| Store.PreparedIsScored | database/operations.py:123-124 | a prepared record carries its own quality score, between 0 and 1 |
| Store.PreparedFacts | database/operations.py:123-124 | preparing adds exactly the hash and score keys and keeps every other value |
| Store.PreparedSameHash | database/operations.py:114-124 | preparing a record does not change its content hash |
| Store.HashesFind | database/operations.py:117 | a hash is among the stored ones exactly when a stored row has it |
| Store.BulkStep | database/operations.py:113-128 | one step counts the record as inserted or duplicate, or fails |
| Store.BulkUpToCounts | database/operations.py:113-128 | after n steps, inserted plus duplicates is n without error and fewer after one |
| Store.BulkUpToFailed | database/operations.py:133-135 | after an error nothing more happens |
| Store.BulkUpToIds | database/operations.py:126-128 | pending rows get consecutive ids from the next free id |
| Store.BulkCounts | database/operations.py:106-139 | inserted plus duplicates is the batch size exactly when nothing failed |
| Store.BulkStamps | database/operations.py:113-128 | each batch entry is left as given or replaced by its prepared form, and every new one is prepared when nothing failed |
| Store.BulkPending | database/operations.py:113-130 | without error, the pending rows are exactly the records whose hash was not stored, in order |
| Store.BulkAllStored | database/operations.py:117-120 | a batch of stored records inserts nothing and counts all as duplicates |
| Store.BulkStoresAll | database/operations.py:117-128 | after a commit every record of the batch has its hash stored |
| Store.BulkResubmit | database/operations.py:106-139 | resubmitting a committed batch inserts nothing and leaves the table as it was |
| Store.BulkKeepsTwins | database/operations.py:116-128 | two equal new records in one batch are both inserted |
| Search.MatchingIff | database/operations.py:224-235 | a row passes the filters exactly when it is stored and matches every active filter |
| Search.SortByDateSorted | database/operations.py:237 | the ordering is newest first and a permutation of its input |
| Search.SearchSound | database/operations.py:218-239 | every row returned is stored and matches, and the result is newest first |
| Search.SearchSize | database/operations.py:237 | as many rows as match, up to the limit |
| Search.SearchNewest | database/operations.py:237 | a matching row is left out only when the limit is reached, and is no newer than any row returned |
| Search.SearchIgnoresCase | database/operations.py:227-229 | the letter case of the city and type arguments does not matter |
| Database.ApplyWrites | database/operations.py:258-259 | one change writes its own column only, never id, website or start time |
| Database.ApplyAllKeepsIdentity | database/operations.py:256-260 | updates never change id, website or start time |
| Database.ApplyAllUntouched | database/operations.py:258-259 | a column no change names keeps its value |
| Database.ApplyAllLastWins | database/operations.py:258-259 | a column takes the value of the last change that names it |
| Database.CompletedUpdate | main.py:69-74 | the completion update sets count, status and end time and nothing else |
| Database.FailedUpdate | main.py:84-88 | the failure update sets status and end time and nothing else |
| Database.FindSession | database/operations.py:256-257 | a session found has the id; none found means no session has it |
| Database.DatabaseOperations.constructor | database/operations.py:12-13 | both tables start empty, with ids from 1 |
| Database.DatabaseOperations.InsertProperty | database/operations.py:51-104 | the table and returned id follow the insert plan: the existing id, a new row appended, or no id and no change |
| Database.DatabaseOperations.BulkIteration | database/operations.py:113-128 | one pass of the loop body does exactly one step of the bulk specification |
| Database.DatabaseOperations.BulkLoop | database/operations.py:112-128 | the loop computes the bulk specification and stamps the batch in place |
| Database.DatabaseOperations.BulkInsertProperties | database/operations.py:106-139 | counts, stamped batch and table as the bulk specification says: all pending rows committed or none |
| Database.DatabaseOperations.CreateScrapingSession | database/operations.py:241-250 | appends a running session with the next id and returns that id |
| Database.DatabaseOperations.UpdateScrapingSession | database/operations.py:252-262 | applies the changes to the session with the id, or changes nothing if there is none |
| DbModels.ConfigDefaults | database/models.py:77-84 | the defaults localhost, 5432, real_estate_pakistan, postgres, empty password, postgresql; an override changes only its own setting |
| DbModels.ConnectionString | database/models.py:86-95 | an error exactly for a type other than postgresql, mysql and sqlite |
| DbModels.ConnectionStringParts | database/models.py:87-93 | the URL starts with the type's scheme and ends with the database name |
| DbModels.SqliteIgnoresServer | database/models.py:91-93 | a sqlite URL depends on the database name only |
| DbModels.ConnectionStringTellsType | database/models.py:86-93 | the URL determines the database type |
| DbModels.NewSession | database/models.py:60-71 | a new session is running, with zero counts and no end time |
| Coordinator.RunSessions | main.py:53-89 | one session per known website, in order, with consecutive ids; completed with the record count exactly when its scrape returned, failed otherwise |
| Coordinator.RunTotal | main.py:66-76 | the records returned number exactly the counts of the completed sessions |
| Coordinator.RunAllFail | main.py:82-89 | when every scrape raises, nothing is returned and every session failed |
| Coordinator.DefaultRun | main.py:48-49 | by default zameen and then graana are scraped, and their records are returned in that order |
| Coordinator.SavedAtMostGiven | main.py:93-114 | the saved count never exceeds the number of records given |
| Coordinator.RealEstateAnalytics.constructor | main.py:28-34 | the coordinator works on the given database layer |
| Coordinator.RealEstateAnalytics.ScrapeSite | main.py:58-89 | creates one session and ends it completed with the count or failed, returning the records |
| Coordinator.RealEstateAnalytics.ScrapeData | main.py:46-91 | records and sessions are those of the run specification over the given or default websites |
| Coordinator.RealEstateAnalytics.CleanAndSaveData | main.py:93-114 | 0 and no change for empty input; the report's TypeError, with the rows and the next id unchanged, when the cleaning report raises; otherwise 0 and no change for an empty cleaned list, or the bulk insert's count, table and next id (advanced by the pending rows only on a commit) |
| Coordinator.RealEstateAnalytics.SaveCleaned | main.py:108-114 | 0 and no change for no records; otherwise the bulk insert's count, table and next id |

## Left out

- `extract_property_info` (scrapers/zameen_scraper.py:101-159) and the HTML look-ups of
  `scrape_property_listings`. The model has no HTML document. The walk takes each page's
  records and its "next page" flag as given by the network reply.
- The `requests.Session` headers, the request timeout, and logging.
- The scraper's `close`, which is assumed not to raise.
- Pauses and sleeps are recorded as events with their durations. The random delay's value
  is not modelled.
- The `GraanaScraper` is not part of this model. Every scraper is represented by what its
  `scrape_all_cities` returns or whether it raises.
- The except branch of `scrape_all_cities` is not modelled: nothing it calls raises.
- `create_tables`, `initialize_database`, `get_properties_by_city`, `get_price_statistics`,
  `get_top_expensive_areas`, CSV export and `setup_logging`:
  these are reporting, schema set-up or file output, and nothing in the modelled core
  depends on them.
- CleaningReport.GenerateCleaningReport: only the counts and whether numpy raises are
  modelled; the means, medians, minima and maxima are floating-point values that only the
  log shows. A mean over text or datetimes is taken to raise a TypeError.
- Environment overrides of the scraping settings. `Settings` uses the defaults; the database
  configuration does read the environment map.
- Column types and lengths are not checked. Only the NOT NULL columns and the
  `date_scraped` datetime are checked.
- Cleaner.QualityScore: the score is computed in exact hundredths. The `round(score, 2)` and
  float rounding of the source are not modelled; prices and areas are exact reals.
- `sha256` and `str()` of floats and datetimes are left uninterpreted. Every statement
  holds whatever they return.
- Store.FindByHash: `query.first()` without ORDER BY is taken to return the earliest stored
  row.
- Database.DatabaseOperations.InsertProperty: ids consumed by a rolled-back insert are not
  skipped.
- Store.BulkStep: an explicit `id` key in a bulk dictionary is not used as the primary key.
  The row always gets the next autoincrement id and keeps `id` among its data, so the
  commit failure and rollback that a clash with a stored id causes are not modelled.
- Search.MatchingIff: `%` and `_` inside a filter argument are taken literally, not as
  wildcards. Rows with the same date keep their storage order. The limit is a natural
  number.
- Database.ApplyWrites: a `setattr` of id, website or start time cannot be expressed as a
  change.
- Session creation and update are assumed not to fail. The unbound `session_id` in the
  except branch of `scrape_data` therefore cannot arise.
- A website's scrape is a deterministic function of the website and the page count. One
  `now` is used for every timestamp of a call.
- Letter case, `\w`, `\s` and `\d` are ASCII only.
- Cleaner.RemoveDuplicates: aliasing between the array's dictionaries and the caller's
  dictionaries is not modelled. Stamping replaces the array entry.
- PriceValues.PriceOfMagnitude and AreaValues.AreaOfUnit read back whole numbers written
  with one space before the word. Fractions such as "2.5 crore" and other spacing are
  covered only by the general lemmas (CleanerFacts.AmountOfScaled, AreaValues.SizedReading
  for any digit string), not by a value read-back.
- LocationValues.CleanTextKeeps states which non-space characters survive `clean_text`.
  Where the spaces end up is stated only for text that is already clean
  (LocationValues.CleanTextIdentity). Removing a character that stands between two spaces
  leaves two spaces in a row; the model computes this, but no lemma states it.
