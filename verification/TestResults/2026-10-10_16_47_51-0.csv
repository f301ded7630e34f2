TestResult.DisplayName,TestResult.Outcome,TestResult.Duration,TestResult.ResourceCount,RandomSeed
Playback.Drain (correctness),Passed,00:00:00.4021679,279448,1
Playback.Drain (well-formedness),Passed,00:00:00.3680443,81633,1
