TestResult.DisplayName,TestResult.Outcome,TestResult.Duration,TestResult.ResourceCount,RandomSeed
Playback.Drain (correctness),Passed,00:00:00.3181108,278252,3
Playback.Drain (well-formedness),Passed,00:00:00.2084948,81574,3
