/** The fixed sample dataset served whenever live data is unavailable. */
module SampleData {
  import opened Wrappers
  import opened FacebookTypes

  const MockAds: seq<CompetitorAd> := [
    CompetitorAd(
      "123", "987654321", "FitPulse Coaching",
      "Transform Your Fitness Routine",
      "Personalized coaching plans built around your schedule.",
      "Thousands of busy professionals trust FitPulse coaches to stay accountable without burning out. Join today and claim a free mobility assessment.",
      Some("https://images.unsplash.com/photo-1571019613454-1cb2f99b2d8b?auto=format&fit=crop&w=600&q=80"),
      Some("https://www.facebook.com/ads/library/?id=123"),
      Some("2024-04-02T12:00:00+0000"), None,
      Some(500), Some(2000), Some(50000), Some(150000),
      Some(["facebook", "instagram"])),
    CompetitorAd(
      "456", "123456789", "FitPulse Coaching",
      "New 28-Day Accountability Challenge",
      "Finally stick to a plan you enjoy.",
      "Ready to build sustainable habits? Our 28-day challenge combines micro workouts, real-time coaching, and recovery protocols proven to keep you consistent.",
      Some("https://images.unsplash.com/photo-1517832207067-4db24a2ae47c?auto=format&fit=crop&w=600&q=80"),
      Some("https://www.facebook.com/ads/library/?id=456"),
      Some("2024-04-20T09:00:00+0000"), None,
      Some(300), Some(1200), Some(20000), Some(90000),
      Some(["facebook"])),
    CompetitorAd(
      "789", "654321987", "FitPulse Coaching",
      "The Accountability App You’ll Actually Use",
      "Daily nudges, expert feedback, and adaptive workouts.",
      "We studied the highest converting fitness ads and built a system that blends 1:1 coaching with smart reminders. See how our clients unlock consistency in under 10 minutes a day.",
      Some("https://images.unsplash.com/photo-1599058917212-d750089bc07e?auto=format&fit=crop&w=600&q=80"),
      Some("https://www.facebook.com/ads/library/?id=789"),
      Some("2024-05-01T16:00:00+0000"), None,
      Some(250), Some(850), Some(15000), Some(40000),
      Some(["instagram"]))
  ]
}
