TestResult.DisplayName,TestResult.Outcome,TestResult.Duration,TestResult.ResourceCount,RandomSeed
Playback.Drain (correctness),Passed,00:00:00.3527405,280767,4
Playback.Drain (well-formedness),Passed,00:00:00.3141039,81632,4
