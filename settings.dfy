/** The configuration constants of config/settings.py that the scraper reads. Each can be
    overridden from the environment in the source; the model uses the defaults. */
module Settings {

  /** The browser identities the scraper rotates through, in order. */
  const UserAgents: seq<string> := [
    "Mozilla/5.0 (Windows NT 10.0; Win64; x64) AppleWebKit/537.36 (KHTML, like Gecko) Chrome/91.0.4472.124 Safari/537.36",
    "Mozilla/5.0 (Windows NT 10.0; Win64; x64) AppleWebKit/537.36 (KHTML, like Gecko) Chrome/92.0.4515.107 Safari/537.36",
    "Mozilla/5.0 (Macintosh; Intel Mac OS X 10_15_7) AppleWebKit/537.36 (KHTML, like Gecko) Chrome/91.0.4472.124 Safari/537.36",
    "Mozilla/5.0 (Windows NT 10.0; Win64; x64; rv:90.0) Gecko/20100101 Firefox/90.0",
    "Mozilla/5.0 (Macintosh; Intel Mac OS X 10_15_7) AppleWebKit/605.1.15 (KHTML, like Gecko) Version/14.1.1 Safari/605.1.15"
  ]

  /** The cities the scraper walks, in order. */
  const TargetCities: seq<string> := ["Karachi", "Lahore", "Islamabad", "Rawalpindi", "Faisalabad"]

  /** Retries after the first attempt of a request. */
  const MaxRetries: int := 3

  /** Bounds, in seconds, of the random pause before each request. */
  const ScrapingDelayMin: nat := 2
  const ScrapingDelayMax: nat := 5

  /** Seconds a request may take before it fails. */
  const RequestTimeout: nat := 30
}
