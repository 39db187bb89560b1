TestResult.DisplayName,TestResult.Outcome,TestResult.Duration,TestResult.ResourceCount,RandomSeed
ShapeBound.DotOfGap (correctness),Passed,00:00:00.1291384,115264,2
ShapeBound.GapAgainst (correctness),Passed,00:00:00.1277568,310635,2
ShapeBound.GapOrthogonal (correctness),Passed,00:00:00.1102823,360396,2
