/** The application settings the modelled logic reads (core/config.py), as constants. */
module Settings {
  /** `max_health_points` */
  const MaxHealthPoints: int := 12
  /** `health_regen_minutes`: one point every 3 minutes */
  const HealthRegenMinutes: int := 3
  /** `rag_threshold` */
  const RagThreshold: real := 0.4
  /** `rag_k` */
  const RagK: int := 5
  /** `max_regeneration_attempts` */
  const MaxRegenerationAttempts: int := 3
  /** `quality_threshold` */
  const QualityThreshold: int := 7
  /** `default_temperature` */
  const DefaultTemperature: real := 0.5
}
